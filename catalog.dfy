/**
 * The home page's catalog strip: the product feed is mapped, one item per
 * product and in the same order, to the items of the infinite moving cards.
 */
module Catalog {
  import opened Wrappers
  import AssetPath
  import Feed
  import CatalogPage

  /** An item of the moving-cards strip. */
  datatype CarouselItem = CarouselItem(name: Option<string>, imageSrc: string, title: string)

  const DefaultImage: string := "default-image.png"

  /** The first photo when `fotos` is a non-empty list, otherwise the fallback image. */
  function ImagePath(p: CatalogPage.Product): (r: string)
    ensures p.fotos.Some? && |p.fotos.value| > 0 ==> r == p.fotos.value[0]
    ensures (p.fotos.None? || |p.fotos.value| == 0) ==> r == DefaultImage
  {
    if p.fotos.Some? && |p.fotos.value| > 0 then p.fotos.value[0] else DefaultImage
  }

  /**
   * One strip item: the product's name, an empty title, and the image resolved
   * against the prefix; without photos the image is the prefixed fallback.
   */
  function ToCarouselItem(basePath: string, p: CatalogPage.Product): (item: CarouselItem)
    ensures item.name == p.nombre && item.title == ""
    ensures |item.imageSrc| > |basePath| && item.imageSrc[..|basePath| + 1] == basePath + "/"
    ensures item.imageSrc[|basePath| + 1..] == AssetPath.StripLeadingSlash(ImagePath(p))
    ensures (p.fotos.None? || |p.fotos.value| == 0) ==> item.imageSrc == basePath + "/" + DefaultImage
  {
    var src := AssetPath.Normalize(basePath, ImagePath(p));
    assert src[|basePath| + 1..] == AssetPath.StripLeadingSlash(ImagePath(p)) by {
      if AssetPath.StartsWithSlash(ImagePath(p)) {
        assert "/" + src[|basePath| + 1..] == "/" + AssetPath.StripLeadingSlash(ImagePath(p));
      }
    }
    CarouselItem(p.nombre, src, "")
  }

  /** `data.map(...)`: one item per product, in order. */
  function CarouselItems(basePath: string, products: seq<CatalogPage.Product>): (r: seq<CarouselItem>)
    ensures |r| == |products|
    ensures forall i :: 0 <= i < |products| ==> r[i] == ToCarouselItem(basePath, products[i])
  {
    seq(|products|, i requires 0 <= i < |products| => ToCarouselItem(basePath, products[i]))
  }

  /** The names in the strip are the products' names, in the same order. */
  lemma CarouselNamesFollowProducts(basePath: string, products: seq<CatalogPage.Product>)
    ensures |CarouselItems(basePath, products)| == |products|
    ensures forall i :: 0 <= i < |products| ==> CarouselItems(basePath, products)[i].name == products[i].nombre
  {
  }

  /** Mapping a concatenation maps each part. */
  lemma {:induction false} CarouselItemsAppend(basePath: string, a: seq<CatalogPage.Product>, b: seq<CatalogPage.Product>)
    ensures CarouselItems(basePath, a + b) == CarouselItems(basePath, a) + CarouselItems(basePath, b)
  {
    var l, r := CarouselItems(basePath, a + b), CarouselItems(basePath, a) + CarouselItems(basePath, b);
    assert |l| == |r|;
    forall i | 0 <= i < |l|
      ensures l[i] == r[i]
    {
      if i < |a| {
        assert (a + b)[i] == a[i];
      } else {
        assert (a + b)[i] == b[i - |a|];
      }
    }
  }

  /** What the section shows: a spinner, an error, the strip, or the empty message. */
  datatype Display = Spinner | ErrorMessage(error: Feed.LoadError) | Strip(items: seq<CarouselItem>) | NothingToShow

  class Section {
    const basePath: string
    var carouselItems: seq<CarouselItem>
    var isLoading: bool
    var error: Option<Feed.LoadError>

    constructor(basePath: string)
      ensures this.basePath == basePath && carouselItems == [] && isLoading && error.None?
    {
      this.basePath := basePath;
      carouselItems, isLoading, error := [], true, None;
    }

    /** The render choice: loading first, then the error, then the strip when it has items. */
    function View(): (d: Display)
      reads this
      ensures d.Spinner? <==> isLoading
      ensures d.ErrorMessage? <==> !isLoading && error.Some?
      ensures d.Strip? <==> !isLoading && error.None? && |carouselItems| > 0
      ensures d.Strip? ==> d.items == carouselItems
    {
      if isLoading then Spinner
      else if error.Some? then ErrorMessage(error.value)
      else if |carouselItems| > 0 then Strip(carouselItems)
      else NothingToShow
    }

    /** The start of the load effect. */
    method BeginLoad()
      modifies this
      ensures isLoading && error.None? && carouselItems == old(carouselItems)
    {
      isLoading := true;
      error := None;
    }

    /** The settled fetch: the mapped items, or an error and no items. */
    method FinishLoad(resp: Feed.Response<CatalogPage.Product>)
      modifies this
      ensures !isLoading
      ensures Feed.Decode(resp).Success? ==>
                carouselItems == CarouselItems(basePath, Feed.Decode(resp).value) && error == old(error)
      ensures Feed.Decode(resp).Failure? ==>
                carouselItems == [] && error == Some(Feed.Decode(resp).error) && View() == ErrorMessage(error.value)
    {
      var decoded := Feed.Decode(resp);
      if decoded.Success? {
        carouselItems := CarouselItems(basePath, decoded.value);
      } else {
        error := Some(decoded.error);
        carouselItems := [];
      }
      isLoading := false;
    }
  }

  /** A load that starts from scratch and succeeds shows the strip exactly when there were products. */
  method LoadOnce(basePath: string, resp: Feed.Response<CatalogPage.Product>) returns (shown: Display)
    ensures Feed.Decode(resp).Success? && |Feed.Decode(resp).value| > 0 ==>
              shown == Strip(CarouselItems(basePath, Feed.Decode(resp).value))
    ensures Feed.Decode(resp).Success? && |Feed.Decode(resp).value| == 0 ==> shown == NothingToShow
    ensures Feed.Decode(resp).Failure? ==> shown == ErrorMessage(Feed.Decode(resp).error)
  {
    var s := new Section(basePath);
    s.BeginLoad();
    s.FinishLoad(resp);
    shown := s.View();
  }
}
