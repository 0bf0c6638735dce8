/** The back office (`pages/AdminDashboard.tsx`): the product and category forms,
    their conversion to and from records, and the handlers that dispatch to the store. */
module AdminDashboard {
  import opened Wrappers
  import opened Seqs
  import opened Text
  import opened Catalog
  import opened ProductService

  /** `prodForm`: the product fields as edited, the two lists as comma-separated text. */
  datatype ProductForm = ProductForm(
    nombre: string,
    descripcion: string,
    precio: int,
    mostrar_precio: bool,
    categorias: string,
    fotos: string,
    link_video: string,
    estado: Estado)

  /** `catForm`. */
  datatype CategoryForm = CategoryForm(nombre: string, imagen: string)

  /** The form for a new product. */
  const EmptyProductForm := ProductForm([], [], 0, true, [], [], [], Disponible)

  /** The form for a new category. */
  const EmptyCategoryForm := CategoryForm([], [])

  /** The separator `join` puts between list entries. */
  const ListSeparator := ", "

  /** The form filled from an existing product: its fields, its lists joined with `", "`,
      and the video link or the empty string. */
  function ProductFormOf(p: Product): ProductForm {
    ProductForm(p.nombre, p.descripcion, p.precio, p.mostrar_precio,
                Join(p.categorias, ListSeparator), Join(p.fotos, ListSeparator),
                if p.link_video.Some? then p.link_video.value else [], p.estado)
  }

  /** The form filled from an existing category. */
  function CategoryFormOf(c: Category): CategoryForm {
    CategoryForm(c.nombre, c.imagen)
  }

  /** `pieces.map(s => s.trim())`. */
  function TrimAll(pieces: seq<string>): (r: seq<string>)
    ensures |r| == |pieces|
    ensures forall i :: 0 <= i < |r| ==> r[i] == Trim(pieces[i])
  {
    if pieces == [] then []
    else [Trim(pieces[0])] + TrimAll(pieces[1..])
  }

  lemma TrimAllConcat(a: seq<string>, b: seq<string>)
    ensures TrimAll(a + b) == TrimAll(a) + TrimAll(b)
  {
    var l, r := TrimAll(a + b), TrimAll(a) + TrimAll(b);
    assert |l| == |r|;
    forall i | 0 <= i < |l| ensures l[i] == r[i] {
      if i < |a| {
        assert (a + b)[i] == a[i];
      } else {
        assert (a + b)[i] == b[i - |a|];
      }
    }
  }

  /** `Boolean` on a string: only the empty string is falsy. */
  function NonEmpty(s: string): bool {
    s != []
  }

  /** `s.split(',').map(s => s.trim()).filter(Boolean)`: the non-blank pieces between
      commas, trimmed, in their left-to-right order. */
  function ParseList(s: string): (r: seq<string>)
    ensures forall k :: 0 <= k < |r| ==> r[k] != [] && IsTrimmed(r[k]) && ',' !in r[k]
  {
    var pieces := Split(s, ',');
    var trimmed := TrimAll(pieces);
    var r := Filter(NonEmpty, trimmed);
    forall k | 0 <= k < |trimmed| ensures ',' !in trimmed[k] && IsTrimmed(trimmed[k]) {
      TrimChars(pieces[k]);
      TrimIsTrimmed(pieces[k]);
    }
    r
  }

  /** Parsing keeps the order of the pieces: text on each side of a comma parses on its own. */
  lemma ParseListConcat(a: string, b: string)
    ensures ParseList(a + [','] + b) == ParseList(a) + ParseList(b)
  {
    SplitConcat(a, b, ',');
    TrimAllConcat(Split(a, ','), Split(b, ','));
    FilterConcat(NonEmpty, TrimAll(Split(a, ',')), TrimAll(Split(b, ',')));
  }

  /** A blank entry parses to nothing. */
  lemma ParseListBlank(s: string)
    requires IsBlank(s) && ',' !in s
    ensures ParseList(s) == []
  {
    SplitNoSep(s, ',');
    TrimEmptyIff(s);
  }

  /** White space in front of the text does not change what it parses to. */
  lemma ParseListLeadingSpace(s: string)
    ensures ParseList([' '] + s) == ParseList(s)
  {
    var rest := Split(s, ',');
    assert ([' '] + s)[1..] == s;
    var pieces := Split([' '] + s, ',');
    assert pieces == [[' '] + rest[0]] + rest[1..];
    TrimLeadingSpace(' ', rest[0]);
    assert TrimAll(pieces) == TrimAll(rest) by {
      assert pieces[1..] == rest[1..];
      assert rest == [rest[0]] + rest[1..];
      assert TrimAll(rest) == [Trim(rest[0])] + TrimAll(rest[1..]);
    }
  }

  /** Entries the parser can give back unchanged: non-empty, trimmed and free of commas. */
  predicate IsListEntry(x: string) {
    x != [] && IsTrimmed(x) && ',' !in x
  }

  /** Joining entries with `", "` and parsing the text again gives back the entries. */
  lemma {:induction false} ParseJoin(xs: seq<string>)
    requires forall k :: 0 <= k < |xs| ==> IsListEntry(xs[k])
    ensures ParseList(Join(xs, ListSeparator)) == xs
    decreases |xs|
  {
    if |xs| == 0 {
      assert Split([], ',') == [[]];
      assert TrimAll([[]]) == [[]];
    } else if |xs| == 1 {
      SplitNoSep(xs[0], ',');
      TrimOfTrimmed(xs[0]);
      assert TrimAll([xs[0]]) == [xs[0]];
    } else {
      var rest := Join(xs[1..], ListSeparator);
      assert Join(xs, ListSeparator) == xs[0] + [','] + ([' '] + rest);
      ParseListConcat(xs[0], [' '] + rest);
      ParseListLeadingSpace(rest);
      ParseJoin(xs[1..]);
      ParseJoin([xs[0]]);
      assert [xs[0]] + xs[1..] == xs;
    }
  }

  /** `formattedData`: the form with its lists parsed and empty `etiquetas`. */
  datatype FormattedData = FormattedData(
    nombre: string,
    descripcion: string,
    precio: int,
    mostrar_precio: bool,
    categorias: seq<string>,
    fotos: seq<string>,
    link_video: string,
    estado: Estado,
    etiquetas: map<string, string>)

  function Format(f: ProductForm): (d: FormattedData)
    ensures d.etiquetas == map[]
    ensures d.nombre == f.nombre && d.descripcion == f.descripcion && d.precio == f.precio
    ensures d.mostrar_precio == f.mostrar_precio && d.link_video == f.link_video && d.estado == f.estado
    ensures d.categorias == ParseList(f.categorias) && d.fotos == ParseList(f.fotos)
    ensures forall k :: 0 <= k < |d.categorias| ==> IsListEntry(d.categorias[k])
    ensures forall k :: 0 <= k < |d.fotos| ==> IsListEntry(d.fotos[k])
  {
    FormattedData(f.nombre, f.descripcion, f.precio, f.mostrar_precio,
                  ParseList(f.categorias), ParseList(f.fotos), f.link_video, f.estado, map[])
  }

  /** `{...editingProduct, ...formattedData}`: the form's fields over the edited product;
      id, likes and both dates stay those of the edited product. */
  function MergeEdit(editing: Product, d: FormattedData): (p: Product)
    ensures p.id == editing.id && p.likes == editing.likes
    ensures p.fecha_creacion == editing.fecha_creacion && p.fecha_desactivacion == editing.fecha_desactivacion
    ensures p.nombre == d.nombre && p.descripcion == d.descripcion && p.precio == d.precio
    ensures p.mostrar_precio == d.mostrar_precio && p.estado == d.estado
    ensures p.categorias == d.categorias && p.fotos == d.fotos
    ensures p.link_video == Some(d.link_video) && p.etiquetas == d.etiquetas
  {
    editing.(nombre := d.nombre, descripcion := d.descripcion, precio := d.precio,
             mostrar_precio := d.mostrar_precio, categorias := d.categorias, fotos := d.fotos,
             link_video := Some(d.link_video), estado := d.estado, etiquetas := d.etiquetas)
  }

  /** `formattedData` as a draft for product creation. */
  function DraftOf(d: FormattedData): Draft {
    Draft(d.nombre, d.descripcion, d.precio, d.mostrar_precio, d.categorias, d.fotos,
          Some(d.link_video), d.etiquetas, d.estado, None)
  }

  /** The repository call a product save makes. */
  datatype ProductRequest = UpdateRequest(product: Product) | CreateRequest(draft: Draft)

  /** `handleSaveProduct`'s dispatch: an update of the merged record when a product is
      being edited, a creation from the form otherwise. */
  function SaveProductRequest(editing: Option<Product>, form: ProductForm): (r: ProductRequest)
    ensures r.UpdateRequest? <==> editing.Some?
    ensures r.UpdateRequest? ==> r.product.id == editing.value.id
    ensures r.CreateRequest? ==> r.draft.etiquetas == map[] && r.draft.link_video == Some(form.link_video)
  {
    var d := Format(form);
    if editing.Some? then UpdateRequest(MergeEdit(editing.value, d)) else CreateRequest(DraftOf(d))
  }

  /** Opening a product for editing and saving without touching the form keeps its lists
      (when their entries are non-empty, trimmed and comma-free), its id, likes and dates;
      it empties `etiquetas` and turns a missing video link into the empty one. */
  lemma EditUnchangedKeepsLists(p: Product)
    requires forall k :: 0 <= k < |p.categorias| ==> IsListEntry(p.categorias[k])
    requires forall k :: 0 <= k < |p.fotos| ==> IsListEntry(p.fotos[k])
    ensures var r := SaveProductRequest(Some(p), ProductFormOf(p));
      && r.UpdateRequest?
      && r.product == p.(link_video := Some(if p.link_video.Some? then p.link_video.value else []), etiquetas := map[])
  {
    ParseJoin(p.categorias);
    ParseJoin(p.fotos);
  }

  /** A product whose video link is set and whose tags are empty goes back to the store unchanged. */
  lemma EditUnchangedIsIdentity(p: Product)
    requires forall k :: 0 <= k < |p.categorias| ==> IsListEntry(p.categorias[k])
    requires forall k :: 0 <= k < |p.fotos| ==> IsListEntry(p.fotos[k])
    requires p.link_video.Some? && p.etiquetas == map[]
    ensures SaveProductRequest(Some(p), ProductFormOf(p)) == UpdateRequest(p)
  {
    EditUnchangedKeepsLists(p);
  }

  /** The form for a new product is empty except for price 0, price shown and `Disponible`. */
  lemma NewProductFormDefaults()
    ensures var r := SaveProductRequest(None, EmptyProductForm);
      && r == CreateRequest(Draft([], [], 0, true, [], [], Some([]), map[], Disponible, None))
  {
    assert Split([], ',') == [[]];
    assert TrimAll([[]]) == [[]];
  }

  /** What a category save does. */
  datatype CategoryRequest =
    | SkipCategory
    | UpdateCategoryRequest(category: Category)
    | CreateCategoryRequest(nombre: string, imagen: string)

  /** `handleSaveCategory`'s guard and dispatch: nothing when a field is empty; otherwise an
      update of the edited category with the form's fields, or a creation. */
  function SaveCategoryRequest(editing: Option<Category>, form: CategoryForm): (r: CategoryRequest)
    ensures r.SkipCategory? <==> form.nombre == [] || form.imagen == []
    ensures !r.SkipCategory? && editing.Some? ==>
      r == UpdateCategoryRequest(Category(editing.value.id, form.nombre, form.imagen))
    ensures !r.SkipCategory? && editing.None? ==> r == CreateCategoryRequest(form.nombre, form.imagen)
  {
    if form.nombre == [] || form.imagen == [] then SkipCategory
    else if editing.Some? then UpdateCategoryRequest(editing.value.(nombre := form.nombre, imagen := form.imagen))
    else CreateCategoryRequest(form.nombre, form.imagen)
  }

  /** Saving a category opened for editing without changes sends it back as it is. */
  lemma CategoryEditUnchanged(c: Category)
    requires c.nombre != [] && c.imagen != []
    ensures SaveCategoryRequest(Some(c), CategoryFormOf(c)) == UpdateCategoryRequest(c)
  {
  }

  datatype Tab = ProductsTab | CategoriesTab

  /** How a save handler ended: skipped by the form guard, saved, or failed (an alert is shown). */
  datatype SaveOutcome = Skipped | Saved | Failed

  class Dashboard {
    /** The browser store behind the service calls. */
    const store: Store
    var activeTab: Tab
    var products: seq<Product>
    var categories: seq<Category>
    var loading: bool
    var isProductModalOpen: bool
    var isCategoryModalOpen: bool
    var editingProduct: Option<Product>
    var editingCategory: Option<Category>
    var prodForm: ProductForm
    var catForm: CategoryForm

    ghost predicate Valid()
      reads this, store
    {
      store.Valid()
    }

    /** The state before the mount effect loads the data. */
    constructor (s: Store)
      requires s.Valid()
      ensures Valid() && store == s
      ensures activeTab == ProductsTab && products == [] && categories == [] && loading
      ensures !isProductModalOpen && !isCategoryModalOpen
      ensures editingProduct == None && editingCategory == None
      ensures prodForm == EmptyProductForm && catForm == EmptyCategoryForm
    {
      store := s;
      activeTab := ProductsTab;
      products := [];
      categories := [];
      loading := true;
      isProductModalOpen := false;
      isCategoryModalOpen := false;
      editingProduct := None;
      editingCategory := None;
      prodForm := EmptyProductForm;
      catForm := EmptyCategoryForm;
    }

    /** `loadData`: the administrative product listing and the categories. */
    method LoadData()
      requires Valid()
      modifies this`products, this`categories, this`loading, store
      ensures Valid()
      ensures products == Listed(old(store.StoredProducts())) && categories == old(store.StoredCategories())
      ensures store.StoredProducts() == old(store.StoredProducts())
      ensures store.StoredCategories() == old(store.StoredCategories())
      ensures !loading
    {
      loading := true;
      products := store.GetAllProductsAdmin();
      categories := store.GetCategories();
      loading := false;
    }

    /** The sidebar buttons. */
    method SelectTab(t: Tab)
      modifies this`activeTab
      ensures activeTab == t
    {
      activeTab := t;
    }

    /** `handleOpenProductModal`: the form of the product to edit, or the empty form. */
    method OpenProductModal(product: Option<Product>)
      modifies this`editingProduct, this`prodForm, this`isProductModalOpen
      ensures editingProduct == product && isProductModalOpen
      ensures prodForm == if product.Some? then ProductFormOf(product.value) else EmptyProductForm
    {
      editingProduct := product;
      if product.Some? {
        prodForm := ProductFormOf(product.value);
      } else {
        prodForm := EmptyProductForm;
      }
      isProductModalOpen := true;
    }

    /** The product form's inputs. */
    method EditProductForm(f: ProductForm)
      modifies this`prodForm
      ensures prodForm == f
    {
      prodForm := f;
    }

    /** `handleSaveProduct`: sends the request `SaveProductRequest` builds from the form:
        an update of the edited product, or a creation with the fresh id and the time.
        On success the lists are reloaded and the modal closes; a failed update changes nothing. */
    method SaveProduct(freshId: string, now: string) returns (outcome: SaveOutcome)
      requires Valid()
      requires editingProduct.None? ==> FindIndex(store.StoredProducts(), ProductId, freshId) == -1
      modifies this`products, this`categories, this`loading, this`isProductModalOpen, store
      ensures Valid()
      ensures store.StoredCategories() == old(store.StoredCategories())
      ensures match SaveProductRequest(editingProduct, prodForm)
        case CreateRequest(d) =>
          outcome == Saved && store.StoredProducts() == [FromDraft(d, freshId, now)] + old(store.StoredProducts())
        case UpdateRequest(p) =>
          var i := FindIndex(old(store.StoredProducts()), ProductId, p.id);
          if i == -1 then outcome == Failed && store.StoredProducts() == old(store.StoredProducts())
          else outcome == Saved && store.StoredProducts() == old(store.StoredProducts())[i := p]
      ensures outcome == Saved ==> !isProductModalOpen && !loading
      ensures outcome == Saved ==> products == Listed(store.StoredProducts()) && categories == store.StoredCategories()
      ensures outcome != Saved ==>
        && isProductModalOpen == old(isProductModalOpen) && products == old(products)
        && categories == old(categories) && loading == old(loading)
    {
      match SaveProductRequest(editingProduct, prodForm) {
        case UpdateRequest(p) =>
          var r := store.UpdateProduct(p);
          if r.Failure? {
            return Failed;
          }
        case CreateRequest(d) =>
          var created := store.CreateProduct(d, freshId, now);
      }
      LoadData();
      isProductModalOpen := false;
      outcome := Saved;
    }

    /** `handleDeleteProduct`: when confirmed, the product is soft-deleted and the lists reloaded. */
    method DeleteProduct(id: string, confirmed: bool)
      requires Valid()
      modifies this`products, this`categories, this`loading, store
      ensures Valid()
      ensures store.StoredCategories() == old(store.StoredCategories())
      ensures confirmed ==> store.StoredProducts() == SoftDeleted(old(store.StoredProducts()), id)
      ensures confirmed ==> products == Listed(store.StoredProducts()) && categories == store.StoredCategories()
      ensures confirmed ==> !loading
      ensures !confirmed ==> unchanged(this) && unchanged(store)
    {
      if confirmed {
        store.DeleteProduct(id);
        LoadData();
      }
    }

    /** `handleOpenCategoryModal`: the form of the category to edit, or the empty form. */
    method OpenCategoryModal(category: Option<Category>)
      modifies this`editingCategory, this`catForm, this`isCategoryModalOpen
      ensures editingCategory == category && isCategoryModalOpen
      ensures catForm == if category.Some? then CategoryFormOf(category.value) else EmptyCategoryForm
    {
      editingCategory := category;
      if category.Some? {
        catForm := CategoryFormOf(category.value);
      } else {
        catForm := EmptyCategoryForm;
      }
      isCategoryModalOpen := true;
    }

    /** The category form's inputs. */
    method EditCategoryForm(f: CategoryForm)
      modifies this`catForm
      ensures catForm == f
    {
      catForm := f;
    }

    /** `handleSaveCategory`: does what `SaveCategoryRequest` decides: nothing when a field
        is empty; otherwise an update of the edited category, or a creation with the fresh id.
        On success the lists are reloaded and the modal closes. */
    method SaveCategory(freshId: string) returns (outcome: SaveOutcome)
      requires Valid()
      requires editingCategory.None? ==> FindIndex(store.StoredCategories(), CategoryId, freshId) == -1
      modifies this`products, this`categories, this`loading, this`isCategoryModalOpen, store
      ensures Valid()
      ensures store.StoredProducts() == old(store.StoredProducts())
      ensures match SaveCategoryRequest(editingCategory, catForm)
        case SkipCategory =>
          outcome == Skipped && store.products == old(store.products) && store.categories == old(store.categories)
        case CreateCategoryRequest(nombre, imagen) =>
          outcome == Saved && store.StoredCategories() == old(store.StoredCategories()) + [Category(freshId, nombre, imagen)]
        case UpdateCategoryRequest(c) =>
          var i := FindIndex(old(store.StoredCategories()), CategoryId, c.id);
          if i == -1 then outcome == Failed && store.StoredCategories() == old(store.StoredCategories())
          else outcome == Saved && store.StoredCategories() == old(store.StoredCategories())[i := c]
      ensures outcome == Saved ==> !isCategoryModalOpen && !loading
      ensures outcome == Saved ==> products == Listed(store.StoredProducts()) && categories == store.StoredCategories()
      ensures outcome != Saved ==>
        && isCategoryModalOpen == old(isCategoryModalOpen) && products == old(products)
        && categories == old(categories) && loading == old(loading)
    {
      match SaveCategoryRequest(editingCategory, catForm) {
        case SkipCategory =>
          return Skipped;
        case UpdateCategoryRequest(c) =>
          var r := store.UpdateCategory(c);
          if r.Failure? {
            return Failed;
          }
        case CreateCategoryRequest(nombre, imagen) =>
          var created := store.CreateCategory(nombre, imagen, freshId);
      }
      LoadData();
      isCategoryModalOpen := false;
      outcome := Saved;
    }

    /** `handleDeleteCategory`: when confirmed, the category is removed and the lists reloaded;
        the products are not touched. */
    method DeleteCategory(id: string, confirmed: bool)
      requires Valid()
      modifies this`products, this`categories, this`loading, store
      ensures Valid()
      ensures store.StoredProducts() == old(store.StoredProducts())
      ensures confirmed ==> store.StoredCategories() == WithoutCategory(old(store.StoredCategories()), id)
      ensures confirmed ==> products == Listed(store.StoredProducts()) && categories == store.StoredCategories()
      ensures confirmed ==> !loading
      ensures !confirmed ==> unchanged(this) && unchanged(store)
    {
      if confirmed {
        store.DeleteCategory(id);
        LoadData();
      }
    }
  }
}
