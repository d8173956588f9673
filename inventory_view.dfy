/** The tabs of the inventory screen: each names its tab id and the view it
    loads, and a tab id is looked up by going through the tabs in order. */
module InventoryViews {
  import opened Wrappers

  const PRODUCT_LIST_VIEW: string := "/templates/product/list.fxml"
  const CATEGORY_VIEW: string := "/templates/product/category.fxml"

  datatype InventoryView = ProductTab | CategoryTab {
    function TabId(): string {
      match this
      case ProductTab => "productTab"
      case CategoryTab => "categoryTab"
    }

    function PathView(): string {
      match this
      case ProductTab => PRODUCT_LIST_VIEW
      case CategoryTab => CATEGORY_VIEW
    }
  }

  /** values(), in declaration order. */
  function AllViews(): seq<InventoryView> {
    [ProductTab, CategoryTab]
  }

  const NOT_FOUND_PREFIX: string := "No se encontro Inventory view con tabId: "

  /** The first view among `views` whose tab id equals tabId. */
  function FirstWithTabId(views: seq<InventoryView>, tabId: string): (r: Option<InventoryView>)
    ensures r.Some? ==> r.value in views && r.value.TabId() == tabId
    ensures r.None? <==> forall v :: v in views ==> v.TabId() != tabId
  {
    if views == [] then None
    else if views[0].TabId() == tabId then Some(views[0])
    else FirstWithTabId(views[1..], tabId)
  }

  /** getByTabId: the view with that tab id, or an IllegalArgumentException
      naming the id. */
  function GetByTabId(tabId: string): (r: Result<InventoryView, string>)
    ensures r.Success? ==> r.value.TabId() == tabId
    ensures r.Failure? <==> tabId != "productTab" && tabId != "categoryTab"
    ensures r.Failure? ==> r.error == NOT_FOUND_PREFIX + tabId
  {
    match FirstWithTabId(AllViews(), tabId)
    case Some(v) => Success(v)
    case None =>
      assert ProductTab in AllViews() && CategoryTab in AllViews();
      assert ProductTab.TabId() != tabId && CategoryTab.TabId() != tabId;
      Failure(NOT_FOUND_PREFIX + tabId)
  }

  /** Every view is found again by its own tab id. */
  lemma LookupRoundTrip(v: InventoryView)
    ensures GetByTabId(v.TabId()) == Success(v)
  {
  }

  /** The product tab loads the product list and the category tab the
      category view. */
  lemma TabsLoadTheirViews()
    ensures GetByTabId("productTab") == Success(ProductTab) && ProductTab.PathView() == PRODUCT_LIST_VIEW
    ensures GetByTabId("categoryTab") == Success(CategoryTab) && CategoryTab.PathView() == CATEGORY_VIEW
  {
  }
}
