/**
 * A catalog card: a photo strip whose current index moves by next, previous,
 * direct selection and an auto-advance tick, always wrapping within the photos.
 */
module ProductCard {
  import opened Wrappers
  import CatalogPage

  /** The index after `next` (and after an auto-advance tick): the last photo wraps to the first. */
  function NextIndex(i: int, len: int): (r: int)
    ensures 0 <= i < len ==> 0 <= r < len && r == (i + 1) % len
    ensures i == len - 1 ==> r == 0
  {
    if i == len - 1 then 0 else i + 1
  }

  /** The index after `previous`: the first photo wraps to the last. */
  function PrevIndex(i: int, len: int): (r: int)
    ensures 0 <= i < len ==> 0 <= r < len && r == (i - 1 + len) % len
    ensures i == 0 ==> r == len - 1
  {
    if i == 0 then len - 1 else i - 1
  }

  lemma PrevThenNext(i: int, len: int)
    requires 0 <= i < len
    ensures NextIndex(PrevIndex(i, len), len) == i
  {
  }

  lemma NextThenPrev(i: int, len: int)
    requires 0 <= i < len
    ensures PrevIndex(NextIndex(i, len), len) == i
  {
  }

  /** The index after `k` auto-advance ticks. */
  function AdvanceN(i: int, k: nat, len: int): int
  {
    if k == 0 then i else NextIndex(AdvanceN(i, k - 1, len), len)
  }

  /** `x` reduced into `[0, n)` by repeatedly taking away `n`. */
  function Wrap(x: nat, n: nat): (r: nat)
    requires n > 0
    ensures r < n
    decreases x
  {
    if x < n then x else Wrap(x - n, n)
  }

  lemma {:induction false} WrapSucc(x: nat, n: nat)
    requires n > 0
    ensures NextIndex(Wrap(x, n), n) == Wrap(x + 1, n)
    decreases x
  {
    if x >= n {
      WrapSucc(x - n, n);
    }
  }

  /** `k` ticks move the index `k` places round the strip. */
  lemma {:induction false} AdvanceIsModular(i: nat, k: nat, len: nat)
    requires i < len
    ensures AdvanceN(i, k, len) == Wrap(i + k, len)
  {
    if k > 0 {
      AdvanceIsModular(i, k - 1, len);
      WrapSucc(i + k - 1, len);
    }
  }

  /** After one tick per photo the strip is back where it started. */
  lemma FullCycleReturns(i: nat, len: nat)
    requires i < len
    ensures AdvanceN(i, len, len) == i
  {
    AdvanceIsModular(i, len, len);
  }

  /** `fotos = []` when the field is absent. */
  function PhotoCount(p: CatalogPage.Product): (n: nat)
    ensures p.fotos.None? ==> n == 0
    ensures p.fotos.Some? ==> n == |p.fotos.value|
  {
    if p.fotos.Some? then |p.fotos.value| else 0
  }

  datatype CardView =
    | Placeholder
    | Full(nombre: string, descripcion: Option<string>, fotos: seq<string>, colores: seq<CatalogPage.ColorOption>)

  /** A missing product, or one whose `nombre` is missing or empty, renders the pulsing placeholder. */
  function View(product: Option<CatalogPage.Product>): (v: CardView)
    ensures v.Placeholder? <==> product.None? || product.value.nombre.None? || product.value.nombre.value == ""
    ensures v.Full? ==> && v.nombre == product.value.nombre.value
                        && v.descripcion == product.value.descripcion
                        && |v.fotos| == PhotoCount(product.value)
                        && (product.value.fotos.Some? ==> v.fotos == product.value.fotos.value)
                        && (product.value.colores.Some? ==> v.colores == product.value.colores.value)
                        && (product.value.colores.None? ==> v.colores == [])
  {
    if product.None? || product.value.nombre.None? || product.value.nombre.value == "" then Placeholder
    else
      var p := product.value;
      Full(p.nombre.value, p.descripcion,
           if p.fotos.Some? then p.fotos.value else [],
           if p.colores.Some? then p.colores.value else [])
  }

  /** The state of one rendered (non-placeholder) card. */
  class Card {
    const photoCount: nat
    var currentImageIndex: int
    var isHovered: bool
    var isImageAreaHovered: bool
    /** Whether the auto-advance interval is registered. */
    var cycling: bool

    predicate HasMultipleImages()
    {
      photoCount > 1
    }

    /**
     * The index names a photo (or is 0 when there is none); the image-area flag is
     * only ever set with several photos; the interval runs exactly when the card is
     * hovered, the image area is hovered and there are several photos.
     */
    ghost predicate Valid()
      reads this
    {
      && 0 <= currentImageIndex
      && (currentImageIndex < photoCount || currentImageIndex == 0)
      && (!HasMultipleImages() ==> currentImageIndex == 0 && !isImageAreaHovered)
      && (cycling <==> isHovered && isImageAreaHovered && HasMultipleImages())
    }

    constructor(photoCount: nat)
      ensures Valid()
      ensures this.photoCount == photoCount
      ensures currentImageIndex == 0 && !isHovered && !isImageAreaHovered && !cycling
    {
      this.photoCount := photoCount;
      currentImageIndex, isHovered, isImageAreaHovered, cycling := 0, false, false, false;
    }

    /** The auto-cycle effect, run after its inputs change. */
    method AutoCycleEffect()
      requires 0 <= currentImageIndex && (currentImageIndex < photoCount || currentImageIndex == 0)
      requires isImageAreaHovered ==> HasMultipleImages()
      modifies this
      ensures Valid()
      ensures cycling <==> isHovered && isImageAreaHovered && HasMultipleImages()
      ensures currentImageIndex == if HasMultipleImages() then old(currentImageIndex) else 0
      ensures isHovered == old(isHovered) && isImageAreaHovered == old(isImageAreaHovered)
    {
      if !isHovered || !HasMultipleImages() || !isImageAreaHovered {
        if !HasMultipleImages() {
          currentImageIndex := 0;
        }
        cycling := false;
        return;
      }
      cycling := true;
    }

    method PointerEnterCard()
      requires Valid()
      modifies this
      ensures Valid()
      ensures isHovered && isImageAreaHovered == old(isImageAreaHovered)
      ensures currentImageIndex == old(currentImageIndex)
    {
      isHovered := true;
      AutoCycleEffect();
    }

    method PointerLeaveCard()
      requires Valid()
      modifies this
      ensures Valid()
      ensures !isHovered && !cycling && isImageAreaHovered == old(isImageAreaHovered)
      ensures currentImageIndex == old(currentImageIndex)
    {
      isHovered := false;
      AutoCycleEffect();
    }

    /** Entering the image area sets its flag only when there are several photos. */
    method PointerEnterImageArea()
      requires Valid()
      modifies this
      ensures Valid()
      ensures isImageAreaHovered <==> HasMultipleImages()
      ensures isHovered == old(isHovered) && currentImageIndex == old(currentImageIndex)
    {
      if HasMultipleImages() {
        isImageAreaHovered := true;
      }
      AutoCycleEffect();
    }

    /** Leaving the image area clears its flag (it can only be set with several photos). */
    method PointerLeaveImageArea()
      requires Valid()
      modifies this
      ensures Valid()
      ensures !isImageAreaHovered && !cycling
      ensures isHovered == old(isHovered) && currentImageIndex == old(currentImageIndex)
    {
      if HasMultipleImages() {
        isImageAreaHovered := false;
      }
      AutoCycleEffect();
    }

    /** One 2.5-second interval tick: advance with wrap-around while cycling, otherwise nothing. */
    method Tick()
      requires Valid()
      modifies this
      ensures Valid()
      ensures old(cycling) ==> currentImageIndex == NextIndex(old(currentImageIndex), photoCount)
      ensures !old(cycling) ==> currentImageIndex == old(currentImageIndex)
      ensures isHovered == old(isHovered) && isImageAreaHovered == old(isImageAreaHovered) && cycling == old(cycling)
    {
      if cycling {
        currentImageIndex := NextIndex(currentImageIndex, photoCount);
      }
    }

    /** The previous-image button, rendered only with several photos while the image area is hovered. */
    method GoToPrevious()
      requires Valid() && HasMultipleImages() && isImageAreaHovered
      modifies this`currentImageIndex
      ensures Valid()
      ensures currentImageIndex == PrevIndex(old(currentImageIndex), photoCount)
    {
      currentImageIndex := PrevIndex(currentImageIndex, photoCount);
    }

    /** The next-image button, rendered only with several photos while the image area is hovered. */
    method GoToNext()
      requires Valid() && HasMultipleImages() && isImageAreaHovered
      modifies this`currentImageIndex
      ensures Valid()
      ensures currentImageIndex == NextIndex(old(currentImageIndex), photoCount)
    {
      currentImageIndex := NextIndex(currentImageIndex, photoCount);
    }

    /** A dot indicator, one per photo, rendered only with several photos. */
    method GoToImage(index: int)
      requires Valid() && HasMultipleImages() && 0 <= index < photoCount
      modifies this`currentImageIndex
      ensures Valid()
      ensures currentImageIndex == index
    {
      currentImageIndex := index;
    }
  }

  /** Previous then next on a card leaves it showing the same photo. */
  method PreviousThenNext(c: Card)
    requires c.Valid() && c.HasMultipleImages() && c.isImageAreaHovered
    modifies c
    ensures c.Valid() && c.currentImageIndex == old(c.currentImageIndex)
  {
    c.GoToPrevious();
    c.GoToNext();
    PrevThenNext(old(c.currentImageIndex), c.photoCount);
  }
}
