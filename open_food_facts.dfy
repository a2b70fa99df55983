/**
 * The Open Food Facts lookup by barcode: the response of the public API,
 * the extraction of a display name and a brand, and the summary the new
 * product form uses. The HTTP request is not modelled: its outcome, the
 * parsed response or `null` after a failed request, is an input.
 */
module OpenFoodFacts {
  import opened Wrappers
  import opened Text

  /** The fields of `product` the service reads; each may be absent. */
  datatype OffProduct = OffProduct(
    productName: Option<string>, brands: Option<string>, quantity: Option<string>, imageUrl: Option<string>)

  /** The API answers `status` 1 with a `product` when the barcode is known. */
  datatype OffResponse = OffResponse(status: int, product: Option<OffProduct>)

  /** `x || ''` on an optional string. */
  function OrEmpty(x: Option<string>): string {
    x.GetOr("")
  }

  /** `isProductFound`. */
  predicate IsProductFound(response: Option<OffResponse>) {
    response.Some? && response.value.status == 1 && response.value.product.Some?
  }

  /** `getProductName`: the name, a space and the quantity when there is one, trimmed; '' when not found. */
  function GetProductName(response: OffResponse): (r: string)
    ensures !IsProductFound(Some(response)) ==> r == ""
    ensures r != [] ==> !IsSpace(r[0]) && !IsSpace(r[|r| - 1])
  {
    if response.status != 1 || response.product.None? then ""
    else
      Trim(NameWithQuantity(response.product.value))
  }

  /** The untrimmed display name: `product_name`, then a space and the quantity when it is not empty. */
  function NameWithQuantity(product: OffProduct): string {
    var name := OrEmpty(product.productName);
    if OrEmpty(product.quantity) != "" then name + " " + OrEmpty(product.quantity) else name
  }

  /** `getProductBrand`: the brands text, or '' when not found or absent. */
  function GetProductBrand(response: OffResponse): (r: string)
    ensures !IsProductFound(Some(response)) ==> r == ""
    ensures IsProductFound(Some(response)) ==> r == OrEmpty(response.product.value.brands)
  {
    if response.status != 1 || response.product.None? then ""
    else OrEmpty(response.product.value.brands)
  }

  /**
   * For a found product whose name and quantity neither start nor end
   * with white space, the display name is the name, a space and the
   * quantity; without a quantity it is the name alone.
   */
  lemma ProductNameJoinsQuantity(response: OffResponse, name: string, quantity: string)
    requires IsProductFound(Some(response))
    requires response.product.value.productName == Some(name)
    requires name != [] && !IsSpace(name[0]) && !IsSpace(name[|name| - 1])
    ensures response.product.value.quantity == Some(quantity) && quantity != [] && !IsSpace(quantity[0]) && !IsSpace(quantity[|quantity| - 1])
      ==> GetProductName(response) == name + " " + quantity
    ensures OrEmpty(response.product.value.quantity) == "" ==> GetProductName(response) == name
  {
    if response.product.value.quantity == Some(quantity) && quantity != [] {
      if !IsSpace(quantity[0]) && !IsSpace(quantity[|quantity| - 1]) {
        var core := name + " " + quantity;
        assert core[|core| - 1] == quantity[|quantity| - 1];
        TrimSurrounded("", core, "");
        assert "" + core + "" == core;
      }
    }
    if OrEmpty(response.product.value.quantity) == "" {
      TrimSurrounded("", name, "");
      assert "" + name + "" == name;
    }
  }

  datatype ProductInfo = ProductInfo(found: bool, name: string, brand: string, imageUrl: Option<string>)

  /** `getProductInfo`, given the outcome of `searchByBarcode`. */
  function GetProductInfo(response: Option<OffResponse>): (r: ProductInfo)
    ensures r.found <==> IsProductFound(response)
    ensures !r.found ==> r.name == "" && r.brand == "" && r.imageUrl.None?
    ensures r.found ==> && r.name == GetProductName(response.value)
                        && r.brand == GetProductBrand(response.value)
                        && r.imageUrl == response.value.product.value.imageUrl
  {
    if !IsProductFound(response) then ProductInfo(false, "", "", None)
    else
      var data := response.value;
      ProductInfo(true, GetProductName(data), GetProductBrand(data), data.product.value.imageUrl)
  }

  /** A failed request and an unknown barcode give the same empty summary. */
  lemma NotFoundIsEmpty(response: OffResponse)
    requires response.status != 1 || response.product.None?
    ensures GetProductInfo(Some(response)) == GetProductInfo(None) == ProductInfo(false, "", "", None)
  {
  }
}
