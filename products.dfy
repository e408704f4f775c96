/**
 * The product screen (components/ProductCreator.tsx): a list / create / edit
 * mode machine over a partial product form, the upsert that saving performs,
 * the category label of the catalog table and the image picker hand-off.
 */
module Products {
  import opened Lists
  import opened Types
  import Categories

  datatype Mode = ListMode | CreateMode | EditMode

  /** `Partial<Product>`: every field may be missing (`None`). */
  datatype Form = Form(
    id: Option<Id>,
    name: Option<string>,
    description: Option<string>,
    price: Option<Number>,
    imageId: Option<Id>,
    categoryId: Option<Id>)

  /** `{}` */
  function EmptyForm(): Form {
    Form(None, None, None, None, None, None)
  }

  /** `setFormData(product)` when "Edit" is clicked. */
  function FormOf(p: Product): Form {
    Form(Some(p.id), Some(p.name), Some(p.description), Some(Finite(p.price)), p.imageId, Some(p.categoryId))
  }

  /** The guard of handleSave: `name`, `price` and `categoryId` all truthy. */
  predicate RequiredFilled(f: Form) {
    Truthy(f.name) && TruthyNumber(f.price) && Truthy(f.categoryId)
  }

  /** The record handleSave builds: `id || randomUUID()`, `description || ''`, `imageId || null`. */
  function ProductFrom(f: Form, freshId: Id): Product
    requires RequiredFilled(f)
  {
    Product(
      if Truthy(f.id) then f.id.value else freshId,
      f.name.value,
      if f.description.Some? then f.description.value else "",
      f.price.value.n,
      if Truthy(f.imageId) then f.imageId else None,
      f.categoryId.value)
  }

  /** A product whose fields are all truthy where the form guard or the defaults look at them. */
  predicate WellFormed(p: Product) {
    p.id != "" && p.name != "" && p.price != 0 && p.categoryId != "" && p.imageId != Some("")
  }

  /** What the form contributes to the saved product, and which defaults fill the gaps. */
  lemma ProductFromFields(f: Form, freshId: Id)
    requires RequiredFilled(f) && freshId != ""
    ensures WellFormed(ProductFrom(f, freshId))
    ensures Truthy(f.id) ==> ProductFrom(f, freshId).id == f.id.value
    ensures !Truthy(f.id) ==> ProductFrom(f, freshId).id == freshId
    ensures f.description.None? ==> ProductFrom(f, freshId).description == ""
    ensures !Truthy(f.imageId) ==> ProductFrom(f, freshId).imageId == None
    ensures ProductFrom(f, freshId).name == f.name.value && ProductFrom(f, freshId).categoryId == f.categoryId.value
  {
  }

  /** Opening a well-formed product for editing and saving it unchanged gives the same product back. */
  lemma EditSaveRoundTrip(p: Product, freshId: Id)
    requires WellFormed(p)
    ensures RequiredFilled(FormOf(p))
    ensures ProductFrom(FormOf(p), freshId) == p
  {
  }

  /** `products.map(p => p.id === product.id ? product : p)` */
  function ReplaceById(products: seq<Product>, product: Product): (r: seq<Product>)
    ensures |r| == |products|
  {
    seq(|products|, i requires 0 <= i < |products| =>
      if products[i].id == product.id then product else products[i])
  }

  /** The ids of a product list, in order. */
  function ProductIds(products: seq<Product>): seq<Id> {
    seq(|products|, i requires 0 <= i < |products| => products[i].id)
  }

  /** Replacing by id touches exactly the matching entries and keeps the id column as it was. */
  lemma ReplaceByIdSpec(products: seq<Product>, product: Product)
    ensures forall i :: 0 <= i < |products| && products[i].id == product.id ==> ReplaceById(products, product)[i] == product
    ensures forall i :: 0 <= i < |products| && products[i].id != product.id ==> ReplaceById(products, product)[i] == products[i]
    ensures ProductIds(ReplaceById(products, product)) == ProductIds(products)
  {
  }

  /** Saving an edit whose id matches no entry leaves the list unchanged. */
  lemma ReplaceUnmatched(products: seq<Product>, product: Product)
    requires forall q :: q in products ==> q.id != product.id
    ensures ReplaceById(products, product) == products
  {
  }

  /** Saving the same edit twice is the same as saving it once. */
  lemma ReplaceIdempotent(products: seq<Product>, product: Product)
    ensures ReplaceById(ReplaceById(products, product), product) == ReplaceById(products, product)
  {
  }

  function HasProductId(id: Id): Product -> bool {
    (p: Product) => p.id == id
  }

  /** After an edit whose id is in the list, looking that id up finds the saved product. */
  lemma ReplaceThenFind(products: seq<Product>, product: Product)
    requires exists q :: q in products && q.id == product.id
    ensures Find(ReplaceById(products, product), HasProductId(product.id)) == Some(product)
  {
    var r := ReplaceById(products, product);
    var q :| q in products && q.id == product.id;
    var j :| 0 <= j < |products| && products[j] == q;
    assert HasProductId(product.id)(r[j]);
    var found := Find(r, HasProductId(product.id));
    var k :| 0 <= k < |r| && r[k] == found.value && HasProductId(product.id)(r[k]);
    assert products[k].id == product.id;
  }

  /** The list after a save: append in create mode, replace by id otherwise. */
  function Upsert(products: seq<Product>, mode: Mode, product: Product): seq<Product> {
    if mode == CreateMode then products + [product] else ReplaceById(products, product)
  }

  /** Create mode adds exactly one product, last; any other mode keeps the length and the ids. */
  lemma UpsertShape(products: seq<Product>, mode: Mode, product: Product)
    ensures mode == CreateMode ==>
      |Upsert(products, mode, product)| == |products| + 1
      && Upsert(products, mode, product)[..|products|] == products
      && Upsert(products, mode, product)[|products|] == product
    ensures mode != CreateMode ==> ProductIds(Upsert(products, mode, product)) == ProductIds(products)
  {
    if mode != CreateMode {
      ReplaceByIdSpec(products, product);
    }
  }

  /** Distinct ids survive a save that appends a fresh id or replaces in place. */
  lemma UpsertKeepsIdsDistinct(products: seq<Product>, mode: Mode, product: Product)
    requires Distinct(products, ProductId)
    requires mode == CreateMode ==> forall q :: q in products ==> q.id != product.id
    ensures Distinct(Upsert(products, mode, product), ProductId)
  {
    var r := Upsert(products, mode, product);
    if mode == CreateMode {
      forall i, j | 0 <= i < j < |r| ensures r[i].id != r[j].id {
        assert r[i] == products[i];
        if j < |products| {
          assert r[j] == products[j];
        } else {
          assert r[i] in products;
        }
      }
    } else {
      ReplaceByIdSpec(products, product);
      forall i, j | 0 <= i < j < |r| ensures r[i].id != r[j].id {
        assert ProductIds(r)[i] == ProductIds(products)[i];
        assert ProductIds(r)[j] == ProductIds(products)[j];
      }
    }
  }

  /** `categories.find(c => c.id === product.categoryId)?.name || 'Unknown'` */
  function CategoryLabel(categories: seq<Category>, product: Product): (shown: string)
    ensures shown != "Unknown" ==> exists k :: 0 <= k < |categories| && categories[k].id == product.categoryId
                                             && categories[k].name == shown
                                             && forall j :: 0 <= j < k ==> categories[j].id != product.categoryId
    ensures (forall c :: c in categories ==> c.id != product.categoryId) ==> shown == "Unknown"
    ensures forall k :: 0 <= k < |categories| && categories[k].id == product.categoryId
                        && (forall j :: 0 <= j < k ==> categories[j].id != product.categoryId)
                        ==> shown == (if categories[k].name != "" then categories[k].name else "Unknown")
  {
    match Find(categories, Categories.HasId(product.categoryId))
    case Some(c) => if c.name != "" then c.name else "Unknown"
    case None => "Unknown"
  }

  /** With distinct category ids the label is the name of the product's category (unless that name is empty). */
  lemma CategoryLabelOfExisting(categories: seq<Category>, product: Product, c: Category)
    requires Distinct(categories, CategoryId)
    requires c in categories && c.id == product.categoryId && c.name != ""
    ensures CategoryLabel(categories, product) == c.name
  {
    var found := Find(categories, Categories.HasId(product.categoryId));
    var k :| 0 <= k < |categories| && categories[k] == found.value && categories[k].id == product.categoryId;
    var j :| 0 <= j < |categories| && categories[j] == c;
    DistinctKeyUnique(categories, CategoryId, j, k);
  }

  class ProductCreator {
    /** The catalog owned by the application shell (`products` / `setProducts`). */
    var products: seq<Product>
    var mode: Mode
    var formData: Form

    /** Product ids are distinct, and a create form never carries an id of its own. */
    ghost predicate Valid()
      reads this
    {
      Distinct(products, ProductId) && (mode == CreateMode ==> formData.id == None)
    }

    constructor (initial: seq<Product>)
      requires Distinct(initial, ProductId)
      ensures Valid()
      ensures products == initial && mode == ListMode && formData == EmptyForm()
    {
      products := initial;
      mode := ListMode;
      formData := EmptyForm();
    }

    /** `resetForm`, also the close button of the form view. */
    method ResetForm()
      requires Valid()
      modifies this
      ensures Valid()
      ensures formData == EmptyForm() && mode == ListMode && products == old(products)
    {
      formData := EmptyForm();
      mode := ListMode;
    }

    /** "New Product", a button of the list view: `setMode('create'); setFormData({})`. */
    method NewProduct()
      requires Valid() && mode == ListMode
      modifies this
      ensures Valid()
      ensures mode == CreateMode && formData == EmptyForm() && products == old(products)
    {
      mode := CreateMode;
      formData := EmptyForm();
    }

    /** "Edit" on a row of the list view: `setMode('edit'); setFormData(product)`. */
    method EditProduct(p: Product)
      requires Valid() && mode == ListMode
      modifies this
      ensures Valid()
      ensures mode == EditMode && formData == FormOf(p) && products == old(products)
    {
      mode := EditMode;
      formData := FormOf(p);
    }

    /** The name input's `onChange`. */
    method SetName(name: string)
      requires Valid()
      modifies this
      ensures Valid()
      ensures formData == old(formData).(name := Some(name))
      ensures mode == old(mode) && products == old(products)
    {
      formData := formData.(name := Some(name));
    }

    /** The price input's `onChange`: `parseFloat` of the text, possibly NaN. */
    method SetPrice(price: Number)
      requires Valid()
      modifies this
      ensures Valid()
      ensures formData == old(formData).(price := Some(price))
      ensures mode == old(mode) && products == old(products)
    {
      formData := formData.(price := Some(price));
    }

    /** The category select's `onChange`; the placeholder option yields `""`. */
    method SetCategory(categoryId: Id)
      requires Valid()
      modifies this
      ensures Valid()
      ensures formData == old(formData).(categoryId := Some(categoryId))
      ensures mode == old(mode) && products == old(products)
    {
      formData := formData.(categoryId := Some(categoryId));
    }

    /** The description textarea's `onChange`. */
    method SetDescription(description: string)
      requires Valid()
      modifies this
      ensures Valid()
      ensures formData == old(formData).(description := Some(description))
      ensures mode == old(mode) && products == old(products)
    {
      formData := formData.(description := Some(description));
    }

    /** The image picker's `onSelect`: only an image is taken; anything else is refused. */
    method SelectImage(file: FileItem) returns (accepted: bool)
      requires Valid()
      modifies this
      ensures Valid()
      ensures accepted <==> file.fileType == Image
      ensures formData == if accepted then old(formData).(imageId := Some(file.id)) else old(formData)
      ensures mode == old(mode) && products == old(products)
    {
      accepted := file.fileType == Image;
      if accepted {
        formData := formData.(imageId := Some(file.id));
      }
    }

    /** `handleSave`, given the id `crypto.randomUUID()` would return. */
    method HandleSave(freshId: Id) returns (saved: bool)
      requires Valid()
      requires freshId != "" && forall q :: q in products ==> q.id != freshId
      modifies this
      ensures Valid()
      ensures saved <==> RequiredFilled(old(formData))
      ensures saved ==> products == Upsert(old(products), old(mode), ProductFrom(old(formData), freshId))
      ensures saved ==> formData == EmptyForm() && mode == ListMode
      ensures !saved ==> products == old(products) && formData == old(formData) && mode == old(mode)
    {
      if !RequiredFilled(formData) {
        return false;
      }
      var product := ProductFrom(formData, freshId);
      UpsertKeepsIdsDistinct(products, mode, product);
      products := Upsert(products, mode, product);
      ResetForm();
      saved := true;
    }
  }
}
