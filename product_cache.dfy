/**
 * The locally cached product list and its three optimistic updates. The
 * cache may be absent (nothing fetched yet); updates and removals then
 * leave it absent.
 */
module ProductCache {
  import opened Wrappers
  import opened Seqs
  import opened ProductTypes

  /** `Partial<Product>`: the fields an update sets. */
  datatype ProductUpdate = ProductUpdate(
    id: Option<string>,
    userId: Option<string>,
    name: Option<string>,
    brand: Option<string>,
    barcode: Option<Option<string>>,
    expiry: Option<Date>,
    quantity: Option<int>,
    status: Option<string>,
    createdAt: Option<string>,
    updatedAt: Option<Option<string>>)

  /** `{ ...p, ...updates }`. */
  function Merge(p: Product, u: ProductUpdate): Product {
    Product(
      u.id.GetOr(p.id), u.userId.GetOr(p.userId), u.name.GetOr(p.name), u.brand.GetOr(p.brand),
      u.barcode.GetOr(p.barcode), u.expiry.GetOr(p.expiry), u.quantity.GetOr(p.quantity),
      u.status.GetOr(p.status), u.createdAt.GetOr(p.createdAt), u.updatedAt.GetOr(p.updatedAt))
  }

  /** An update that sets nothing changes nothing. */
  lemma MergeNothing(p: Product)
    ensures Merge(p, ProductUpdate(None, None, None, None, None, None, None, None, None, None)) == p
  {
  }

  function UpdateIf(productId: string, updates: ProductUpdate): Product -> Product {
    (p: Product) => if p.id == productId then Merge(p, updates) else p
  }

  /** The list after `updateProductInCache`: every entry with the id merged, the rest as they were. */
  function UpdateEntries(products: seq<Product>, productId: string, updates: ProductUpdate): (r: seq<Product>)
    ensures |r| == |products|
    ensures forall k :: 0 <= k < |r| ==>
      r[k] == (if products[k].id == productId then Merge(products[k], updates) else products[k])
  {
    Map(products, UpdateIf(productId, updates))
  }

  function HasOtherId(productId: string): Product -> bool {
    (p: Product) => p.id != productId
  }

  /** The list after `removeProductFromCache`: the entries with another id, in their order. */
  function RemoveEntries(products: seq<Product>, productId: string): (r: seq<Product>)
    ensures IsSubsequence(r, products)
    ensures forall p :: p in r <==> p in products && p.id != productId
  {
    FilterIsSubsequence(products, HasOtherId(productId));
    FilterKeeps(products, HasOtherId(productId));
    Filter(products, HasOtherId(productId))
  }

  /** Removing an id that is not cached keeps the list as it is. */
  lemma RemoveAbsentId(products: seq<Product>, productId: string)
    requires forall k :: 0 <= k < |products| ==> products[k].id != productId
    ensures RemoveEntries(products, productId) == products
  {
    FilterAll(products, HasOtherId(productId));
  }

  /** Updating then removing an id is removing it, when the update keeps the id. */
  lemma RemoveAfterUpdate(products: seq<Product>, productId: string, updates: ProductUpdate)
    requires updates.id.None?
    ensures RemoveEntries(UpdateEntries(products, productId, updates), productId) ==
      RemoveEntries(products, productId)
  {
    RemoveAfterUpdateRec(products, productId, updates);
  }

  lemma {:induction false} RemoveAfterUpdateRec(products: seq<Product>, productId: string, updates: ProductUpdate)
    requires updates.id.None?
    ensures Filter(Map(products, UpdateIf(productId, updates)), HasOtherId(productId)) ==
      Filter(products, HasOtherId(productId))
  {
    if products != [] {
      RemoveAfterUpdateRec(products[1..], productId, updates);
      assert Map(products, UpdateIf(productId, updates))[1..] == Map(products[1..], UpdateIf(productId, updates));
    }
  }

  /** The query cache entry: `None` until the list has been fetched. */
  class Cache {
    var data: Option<seq<Product>>

    constructor(data: Option<seq<Product>>)
      ensures this.data == data
    {
      this.data := data;
    }

    /** `products`: the cached list, or an empty one. */
    function Products(): seq<Product>
      reads this
    {
      data.GetOr([])
    }

    /** `updateProductInCache(productId, updates)`. */
    method UpdateProductInCache(productId: string, updates: ProductUpdate)
      modifies this
      ensures old(data).None? ==> data.None?
      ensures old(data).Some? ==> data == Some(UpdateEntries(old(data).value, productId, updates))
    {
      if data.Some? {
        data := Some(UpdateEntries(data.value, productId, updates));
      }
    }

    /** `removeProductFromCache(productId)`. */
    method RemoveProductFromCache(productId: string)
      modifies this
      ensures old(data).None? ==> data.None?
      ensures old(data).Some? ==> data == Some(RemoveEntries(old(data).value, productId))
    {
      if data.Some? {
        data := Some(RemoveEntries(data.value, productId));
      }
    }

    /** `addProductToCache(product)`: appended at the end; an absent cache becomes `[product]`. */
    method AddProductToCache(product: Product)
      modifies this
      ensures data == Some(old(Products()) + [product])
    {
      if data.None? {
        assert old(Products()) + [product] == [product];
        data := Some([product]);
      } else {
        data := Some(data.value + [product]);
      }
    }
  }
}
