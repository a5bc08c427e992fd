/** Supply accounting for a launchpad collection: how many items it holds and how
    far its sale has progressed (app/helpers/launchpad.js). */
module Launchpad {
  import opened Wrappers

  /** The fields of a collection's policy that decide its total. A missing or
      empty identifier is falsy in the source, and `inscriptionIds` is `None`
      whenever the policy's `inscription_ids` is not an array. */
  datatype CollectionPolicy = CollectionPolicy(
    galleryInscriptionId: Option<string>,
    parentInscriptionId: Option<string>,
    inscriptionIds: Option<seq<string>>)

  /** The parent inscription's counters as the store reports them; either may be missing. */
  datatype ParentInscription = ParentInscription(galleryCount: Option<int>, childCount: Option<int>)

  /** The derived supply snapshot handed to the launchpad views. */
  datatype Supply = Supply(
    total: int,
    pending: int,
    available: int,
    unavailable: int,
    minted: int,
    mintable: int,
    progress: int,
    isSoldOut: bool,
    hasMintable: bool)

  /** Which rule decides a collection's total, in the order the source tries them. */
  datatype SupplySource = GalleryLinked | ParentLinked | StaticList(ids: seq<string>) | Unsourced

  /** JavaScript truthiness of an identifier field. */
  predicate Present(id: Option<string>) {
    id.Some? && id.value != ""
  }

  /** The supply source of a policy: gallery link first, then parent link, then a static list. */
  function SourceOf(c: CollectionPolicy): (src: SupplySource)
    ensures src == GalleryLinked <==> Present(c.galleryInscriptionId)
    ensures src == ParentLinked <==> !Present(c.galleryInscriptionId) && Present(c.parentInscriptionId)
    ensures src.StaticList? <==>
              !Present(c.galleryInscriptionId) && !Present(c.parentInscriptionId) && c.inscriptionIds.Some?
    ensures src.StaticList? ==> src.ids == c.inscriptionIds.value
  {
    if Present(c.galleryInscriptionId) then GalleryLinked
    else if Present(c.parentInscriptionId) then ParentLinked
    else if c.inscriptionIds.Some? then StaticList(c.inscriptionIds.value)
    else Unsourced
  }

  /** `parent?.galleryCount ?? 0` */
  function GalleryCountOrZero(parent: Option<ParentInscription>): int {
    if parent.Some? then parent.value.galleryCount.GetOr(0) else 0
  }

  /** `parent?.childCount ?? 0` */
  function ChildCountOrZero(parent: Option<ParentInscription>): int {
    if parent.Some? then parent.value.childCount.GetOr(0) else 0
  }

  /** The collection total: the parent's gallery count for a gallery-linked
      collection, the parent's child count for a parent-linked one, the length of
      the static list otherwise, and 0 when there is none of these. */
  function ResolveTotal(c: CollectionPolicy, parent: Option<ParentInscription>): (total: int)
    ensures SourceOf(c) == GalleryLinked ==> total == GalleryCountOrZero(parent)
    ensures SourceOf(c) == ParentLinked ==> total == ChildCountOrZero(parent)
    ensures SourceOf(c).StaticList? ==> total == |c.inscriptionIds.value|
    ensures SourceOf(c) == Unsourced ==> total == 0
  {
    if Present(c.galleryInscriptionId) then GalleryCountOrZero(parent)
    else if Present(c.parentInscriptionId) then ChildCountOrZero(parent)
    else if c.inscriptionIds.Some? then |c.inscriptionIds.value|
    else 0
  }

  /** A linked collection whose parent inscription did not load has total 0. */
  lemma MissingParentGivesZero(c: CollectionPolicy)
    requires SourceOf(c) == GalleryLinked || SourceOf(c) == ParentLinked
    ensures ResolveTotal(c, None) == 0
  {
  }

  /** A collection that is not linked to a parent ignores the parent's counters. */
  lemma UnlinkedTotalIgnoresParent(c: CollectionPolicy, p: Option<ParentInscription>, q: Option<ParentInscription>)
    requires SourceOf(c).StaticList? || SourceOf(c) == Unsourced
    ensures ResolveTotal(c, p) == ResolveTotal(c, q)
  {
  }

  /** A gallery link takes precedence: the parent link and the static list do not matter. */
  lemma GalleryLinkTakesPrecedence(c: CollectionPolicy, parentId: Option<string>, ids: Option<seq<string>>,
                                   parent: Option<ParentInscription>)
    requires Present(c.galleryInscriptionId)
    ensures ResolveTotal(c.(parentInscriptionId := parentId, inscriptionIds := ids), parent)
         == ResolveTotal(c, parent)
  {
  }

  /** A parent link takes precedence over a static list. */
  lemma ParentLinkTakesPrecedence(c: CollectionPolicy, ids: Option<seq<string>>, parent: Option<ParentInscription>)
    requires !Present(c.galleryInscriptionId) && Present(c.parentInscriptionId)
    ensures ResolveTotal(c.(inscriptionIds := ids), parent) == ResolveTotal(c, parent)
  {
  }

  /** `Math.round(part / whole * 100)` over exact rationals: the nearest integer to
      the percentage, halves rounding up. */
  function RoundedPercent(part: int, whole: int): (p: int)
    requires whole > 0
    ensures 2 * whole * p <= 200 * part + whole < 2 * whole * (p + 1)
  {
    (200 * part + whole) / (2 * whole)
  }

  /** The rounding condition pins the percentage down: no other integer meets it. */
  lemma {:induction false} RoundedPercentUnique(part: int, whole: int, p: int)
    requires whole > 0
    requires 2 * whole * p <= 200 * part + whole < 2 * whole * (p + 1)
    ensures p == RoundedPercent(part, whole)
  {
    var q := RoundedPercent(part, whole);
    if p < q {
      MulMonotone(2 * whole, p + 1, q);
    } else if q < p {
      MulMonotone(2 * whole, q + 1, p);
    }
  }

  /** Multiplying by a positive factor keeps order. */
  lemma MulMonotone(k: int, a: int, b: int)
    requires k > 0 && a <= b
    ensures k * a <= k * b
  {
    assert k * b - k * a == k * (b - a);
  }

  /** A larger part never gives a smaller percentage. */
  lemma {:induction false} RoundedPercentMonotone(a: int, b: int, whole: int)
    requires whole > 0 && a <= b
    ensures RoundedPercent(a, whole) <= RoundedPercent(b, whole)
  {
    var pa := RoundedPercent(a, whole);
    var pb := RoundedPercent(b, whole);
    if pb < pa {
      MulMonotone(2 * whole, pb + 1, pa);
    }
  }

  /** The supply snapshot: absent counts read as 0, `pending` is passed through,
      and nothing is clamped, so inconsistent counts show up as negative values. */
  function BuildSupply(c: CollectionPolicy, parent: Option<ParentInscription>,
                       availableCount: Option<int>, pendingCount: Option<int>): (s: Supply)
    ensures s.total == ResolveTotal(c, parent)
    ensures s.available == availableCount.GetOr(0) && s.pending == pendingCount.GetOr(0)
    ensures s.available + s.unavailable == s.total
    ensures s.minted == s.unavailable && s.mintable == s.available
    ensures s.isSoldOut <==> s.available <= 0
    ensures s.hasMintable <==> !s.isSoldOut
    ensures s.total <= 0 ==> s.progress == 0
    ensures s.total > 0 ==>
              2 * s.total * s.progress <= 200 * s.unavailable + s.total < 2 * s.total * (s.progress + 1)
  {
    var total := ResolveTotal(c, parent);
    var available := availableCount.GetOr(0);
    var unavailable := total - available;
    Supply(
      total := total,
      pending := pendingCount.GetOr(0),
      available := available,
      unavailable := unavailable,
      minted := unavailable,
      mintable := available,
      progress := if total > 0 then RoundedPercent(unavailable, total) else 0,
      isSoldOut := available <= 0,
      hasMintable := available > 0)
  }

  /** With consistent counts the progress is a percentage, 0 when nothing has
      sold and 100 when nothing is left. */
  lemma {:induction false} ProgressInRange(c: CollectionPolicy, parent: Option<ParentInscription>,
                                           availableCount: Option<int>, pendingCount: Option<int>)
    requires var s := BuildSupply(c, parent, availableCount, pendingCount);
             s.total > 0 && 0 <= s.available <= s.total
    ensures var s := BuildSupply(c, parent, availableCount, pendingCount);
            && 0 <= s.progress <= 100
            && (s.available == s.total ==> s.progress == 0)
            && (s.available == 0 ==> s.progress == 100)
  {
    var s := BuildSupply(c, parent, availableCount, pendingCount);
    var t := s.total;
    RoundedPercentMonotone(0, s.unavailable, t);
    RoundedPercentMonotone(s.unavailable, t, t);
    RoundedPercentUnique(0, t, 0);
    RoundedPercentUnique(t, t, 100);
  }

  /** Fewer available items (same total) never lower the progress. */
  lemma ProgressMonotone(c: CollectionPolicy, parent: Option<ParentInscription>,
                         a1: int, a2: int, pendingCount: Option<int>)
    requires a2 <= a1
    ensures BuildSupply(c, parent, Some(a1), pendingCount).progress
         <= BuildSupply(c, parent, Some(a2), pendingCount).progress
  {
    var t := ResolveTotal(c, parent);
    if t > 0 {
      RoundedPercentMonotone(t - a1, t - a2, t);
    }
  }

  /** A static list of 100 items with 40 available and 5 pending. */
  lemma StaticListExample()
    ensures var c := CollectionPolicy(None, None, Some(seq(100, i => "inscription")));
            (BuildSupply(c, None, Some(40), Some(5))
             == Supply(total := 100, pending := 5, available := 40, unavailable := 60, minted := 60,
                       mintable := 40, progress := 60, isSoldOut := false, hasMintable := true))
  {
  }

  /** A gallery-linked collection whose gallery count is missing has nothing to sell. */
  lemma MissingGalleryCountExample()
    ensures var c := CollectionPolicy(Some("gallery"), None, None);
            var s := BuildSupply(c, Some(ParentInscription(None, Some(7))), None, None);
            s.total == 0 && s.progress == 0 && s.isSoldOut && !s.hasMintable
  {
  }

  /** More available than total: nothing is clamped, the counts go negative. */
  lemma OverfullExample()
    ensures var c := CollectionPolicy(None, None, Some(seq(10, i => "inscription")));
            var s := BuildSupply(c, None, Some(20), None);
            s.unavailable == -10 && s.minted == -10 && s.progress == -100 && !s.isSoldOut
  {
  }
}
