/** The product detail modal (`components/ProductModal.tsx`): the image list with
    its wrap-around carousel index, and the price and purchase label it shows. */
module ProductModal {
  import opened Wrappers
  import opened Catalog
  import opened ProductService
  import opened Text

  const ImagePlaceholder := "https://via.placeholder.com/600"

  /** `images`: the product's photos, or the placeholder alone when it has none. */
  function Images(p: Product): (images: seq<string>)
    ensures |images| >= 1
    ensures |p.fotos| > 0 ==> images == p.fotos
    ensures |p.fotos| == 0 ==> images == [ImagePlaceholder]
  {
    if |p.fotos| > 0 then p.fotos else [ImagePlaceholder]
  }

  /** The "next" arrow: one forward, and from the last image back to the first. */
  function NextIndex(i: int, len: int): (j: int)
    ensures 0 <= i < len ==> 0 <= j < len && j == (i + 1) % len
  {
    if i == len - 1 then 0 else i + 1
  }

  /** The "previous" arrow: one back, and from the first image to the last. */
  function PrevIndex(i: int, len: int): (j: int)
    ensures 0 <= i < len ==> 0 <= j < len && j == (i - 1) % len
  {
    if i == 0 then len - 1 else i - 1
  }

  /** The two arrows undo each other. */
  lemma ArrowsInverse(i: int, len: int)
    requires 0 <= i < len
    ensures PrevIndex(NextIndex(i, len), len) == i
    ensures NextIndex(PrevIndex(i, len), len) == i
  {
  }

  /** The "next" arrow pressed `k` times. */
  function NextTimes(i: int, len: int, k: nat): int {
    if k == 0 then i else NextIndex(NextTimes(i, len, k - 1), len)
  }

  lemma MulAtLeast(d: int, n: int)
    requires d >= 1 && n >= 1
    ensures d * n >= n
  {
    assert (d - 1) * n >= 0;
  }

  /** `x % n` is the only remainder in `[0, n)` that differs from `x` by a multiple of `n`. */
  lemma ModUnique(x: int, n: int, q: int, r: int)
    requires n >= 1 && 0 <= r < n && x == q * n + r
    ensures x % n == r
  {
    var d := q - x / n;
    assert d * n == x % n - r;
    if d > 0 {
      MulAtLeast(d, n);
    } else if d < 0 {
      MulAtLeast(-d, n);
    }
  }

  lemma ModSucc(a: int, n: int)
    requires n >= 1 && a >= 0
    ensures (a % n + 1) % n == (a + 1) % n
  {
    var q, r := a / n, a % n;
    if r + 1 == n {
      ModUnique(a + 1, n, q + 1, 0);
      ModUnique(r + 1, n, 1, 0);
    } else {
      ModUnique(a + 1, n, q, r + 1);
      ModUnique(r + 1, n, 0, r + 1);
    }
  }

  /** Pressing "next" `k` times moves `k` places round the circle of images. */
  lemma {:induction false} NextTimesMod(i: int, len: int, k: nat)
    requires 0 <= i < len
    ensures NextTimes(i, len, k) == (i + k) % len
  {
    if k > 0 {
      NextTimesMod(i, len, k - 1);
      ModSucc(i + k - 1, len);
    }
  }

  /** Pressing "next" once per image comes back to the image it started on. */
  lemma NextFullCycle(i: int, len: int)
    requires 0 <= i < len
    ensures NextTimes(i, len, len) == i
  {
    NextTimesMod(i, len, len);
    ModUnique(i + len, len, 1, i);
  }

  /** What the price area shows. */
  datatype PriceView = ShowPrice(currency: string, precio: int) | AskInDM

  const AskInDMText := "Consultar al DM"
  const BuyLabel := "Comprar por WhatsApp"
  const AskPriceLabel := "Consultar Precio"

  /** The price with the currency symbol when the price is shown, the DM note otherwise. */
  function PriceViewOf(p: Product, currency: string): (v: PriceView)
    ensures v.ShowPrice? <==> p.mostrar_precio
    ensures v.ShowPrice? ==> v.currency == currency && v.precio == p.precio
  {
    if p.mostrar_precio then ShowPrice(currency, p.precio) else AskInDM
  }

  /** The label of the WhatsApp button. */
  function ActionLabel(p: Product): (text: string)
    ensures text == BuyLabel <==> p.mostrar_precio
    ensures text == AskPriceLabel <==> !p.mostrar_precio
  {
    if p.mostrar_precio then BuyLabel else AskPriceLabel
  }

  /** What the modal shows agrees with the message it sends: the button reads "Comprar por
      WhatsApp" exactly when the price is shown, and exactly when the WhatsApp message ends
      with the purchase clause. */
  lemma LabelMatchesPriceAndMessage(p: Product, currency: string)
    ensures ActionLabel(p) == BuyLabel <==> PriceViewOf(p, currency).ShowPrice?
    ensures var t := WhatsAppText(p);
      ActionLabel(p) == BuyLabel <==> (|t| >= |BuyClause| && t[|t| - |BuyClause|..] == BuyClause)
  {
    WhatsAppTextShape(p);
  }

  /** The modal open on one product. */
  class ProductModalView {
    const product: Product
    const images: seq<string>
    /** `currentImageIdx`. */
    var currentImageIdx: int

    ghost predicate Valid()
      reads this
    {
      images == Images(product) && 0 <= currentImageIdx < |images|
    }

    constructor (p: Product)
      ensures Valid() && product == p && currentImageIdx == 0
    {
      product := p;
      images := Images(p);
      currentImageIdx := 0;
    }

    /** The arrows are rendered only when there is more than one image. */
    predicate ShowsArrows()
      reads this
    {
      |images| > 1
    }

    /** The url the gallery shows. */
    function CurrentImageUrl(): (url: string)
      reads this
      requires Valid()
      ensures !IsBlank(images[currentImageIdx]) ==> url == images[currentImageIdx]
      ensures IsBlank(images[currentImageIdx]) ==> url == VideoPlaceholder
      ensures |product.fotos| == 0 ==> url == ImagePlaceholder
    {
      GetOptimizedImageUrl(Some(images[currentImageIdx]))
    }

    /** The left arrow. With a single image there is no arrow and the index stays 0. */
    method ClickPrevious() returns (handled: bool)
      requires Valid()
      modifies this
      ensures Valid()
      ensures handled == ShowsArrows()
      ensures currentImageIdx == if handled then PrevIndex(old(currentImageIdx), |images|) else old(currentImageIdx)
      ensures |images| == 1 ==> currentImageIdx == 0
    {
      handled := |images| > 1;
      if handled {
        currentImageIdx := if currentImageIdx == 0 then |images| - 1 else currentImageIdx - 1;
      }
    }

    /** The right arrow. With a single image there is no arrow and the index stays 0. */
    method ClickNext() returns (handled: bool)
      requires Valid()
      modifies this
      ensures Valid()
      ensures handled == ShowsArrows()
      ensures currentImageIdx == if handled then NextIndex(old(currentImageIdx), |images|) else old(currentImageIdx)
      ensures |images| == 1 ==> currentImageIdx == 0
    {
      handled := |images| > 1;
      if handled {
        currentImageIdx := if currentImageIdx == |images| - 1 then 0 else currentImageIdx + 1;
      }
    }
  }
}
