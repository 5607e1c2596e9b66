/**
 * The category classifier held by the bookmark repository: a fixed table from
 * place-type codes of the places service to five category names, and a fixed
 * table from those names to icon resources.
 */
module Categories {
  import opened Wrappers

  /**
   * The place-type codes the classifier's table lists, and `OtherType` for
   * every other code the places service can report.
   */
  datatype PlaceType =
    | Bakery | Bar | Cafe | Food | Restaurant | MealDelivery | MealTakeaway
    | GasStation
    | ClothingStore | DepartmentStore | FurnitureStore | GroceryOrSupermarket
    | HardwareStore | HomeGoodsStore | JewelryStore | ShoeStore | ShoppingMall | Store
    | Lodging | Room
    | OtherType

  /** The drawable resources shown for a category. */
  datatype Icon = IcGas | IcLodging | IcOther | IcRestaurant | IcShopping

  /** The five category names. */
  const CategoryNames: set<string> := {"Gas", "Lodging", "Other", "Restaurant", "Shopping"}

  const RestaurantTypes: set<PlaceType> :=
    {Bakery, Bar, Cafe, Food, Restaurant, MealDelivery, MealTakeaway}

  const ShoppingTypes: set<PlaceType> :=
    {ClothingStore, DepartmentStore, FurnitureStore, GroceryOrSupermarket, HardwareStore,
     HomeGoodsStore, JewelryStore, ShoeStore, ShoppingMall, Store}

  const LodgingTypes: set<PlaceType> := {Lodging, Room}

  /** The category-to-icon table: one distinct icon for each of the five names. */
  function BuildCategories(): (m: map<string, Icon>)
    ensures m.Keys == CategoryNames
    ensures forall c1, c2 | c1 in m && c2 in m && c1 != c2 :: m[c1] != m[c2]
  {
    map[
      "Gas" := IcGas,
      "Lodging" := IcLodging,
      "Other" := IcOther,
      "Restaurant" := IcRestaurant,
      "Shopping" := IcShopping
    ]
  }

  /**
   * The place-type table: the seven food codes go to "Restaurant", the gas
   * station to "Gas", the ten store and mall codes to "Shopping", lodging and
   * room to "Lodging", and no other code has an entry.
   */
  function BuildCategoryMap(): (m: map<PlaceType, string>)
    ensures forall t :: t in m <==> !t.OtherType?
  {
    map[
      Bakery := "Restaurant",
      Bar := "Restaurant",
      Cafe := "Restaurant",
      Food := "Restaurant",
      Restaurant := "Restaurant",
      MealDelivery := "Restaurant",
      MealTakeaway := "Restaurant",
      GasStation := "Gas",
      ClothingStore := "Shopping",
      DepartmentStore := "Shopping",
      FurnitureStore := "Shopping",
      GroceryOrSupermarket := "Shopping",
      HardwareStore := "Shopping",
      HomeGoodsStore := "Shopping",
      JewelryStore := "Shopping",
      ShoeStore := "Shopping",
      ShoppingMall := "Shopping",
      Store := "Shopping",
      Lodging := "Lodging",
      Room := "Lodging"
    ]
  }

  /** The food codes are classified as "Restaurant". */
  lemma RestaurantEntries()
    ensures forall t | t in RestaurantTypes :: BuildCategoryMap()[t] == "Restaurant"
  {
  }

  /** The gas station is classified as "Gas". */
  lemma GasEntries()
    ensures BuildCategoryMap()[GasStation] == "Gas"
  {
  }

  /** The store and mall codes are classified as "Shopping". */
  lemma ShoppingEntries()
    ensures forall t | t in ShoppingTypes :: BuildCategoryMap()[t] == "Shopping"
  {
  }

  /** Lodging and room are classified as "Lodging". */
  lemma LodgingEntries()
    ensures forall t | t in LodgingTypes :: BuildCategoryMap()[t] == "Lodging"
  {
  }

  /** The listed place types are exactly those that are not `OtherType`. */
  lemma ListedTypes(placeType: PlaceType)
    ensures placeType in RestaurantTypes + {GasStation} + ShoppingTypes + LodgingTypes <==> !placeType.OtherType?
  {
    match placeType
    case OtherType =>
    case _ =>
  }

  /**
   * Classifies a place-type code. Total: every code gets one of the five names,
   * and so always one that has an icon; unlisted codes fall back to "Other".
   */
  function PlaceTypeToCategory(placeType: PlaceType): (category: string)
    ensures category in BuildCategories()
    ensures category == "Other" <==> placeType.OtherType?
    ensures category == "Restaurant" <==> placeType in RestaurantTypes
    ensures category == "Gas" <==> placeType == GasStation
    ensures category == "Lodging" <==> placeType in LodgingTypes
    ensures category == "Shopping" <==> placeType in ShoppingTypes
  {
    ListedTypes(placeType);
    RestaurantEntries();
    GasEntries();
    ShoppingEntries();
    LodgingEntries();
    var categoryMap := BuildCategoryMap();
    if placeType in categoryMap then categoryMap[placeType] else "Other"
  }

  /** The icon of a category name; none for a string that is not one of the five. */
  function GetCategoryResourceId(placeCategory: string): (icon: Option<Icon>)
    ensures icon.Some? <==> placeCategory in CategoryNames
    ensures placeCategory == "Gas" ==> icon == Some(IcGas)
    ensures placeCategory == "Lodging" ==> icon == Some(IcLodging)
    ensures placeCategory == "Other" ==> icon == Some(IcOther)
    ensures placeCategory == "Restaurant" ==> icon == Some(IcRestaurant)
    ensures placeCategory == "Shopping" ==> icon == Some(IcShopping)
  {
    var allCategories := BuildCategories();
    if placeCategory in allCategories then Some(allCategories[placeCategory]) else None
  }

  /**
   * The category names offered for selection: each key of the icon table exactly
   * once. The order a hash map yields its keys in is not modelled.
   */
  function GetCategories(): (names: seq<string>)
    ensures |names| == |BuildCategories()|
    ensures forall i, j | 0 <= i < j < |names| :: names[i] != names[j]
    ensures forall c :: c in names <==> GetCategoryResourceId(c).Some?
  {
    ["Gas", "Lodging", "Other", "Restaurant", "Shopping"]
  }

  /** Distinct categories are shown with distinct icons. */
  lemma IconsDistinct(c1: string, c2: string)
    requires c1 != c2
    requires GetCategoryResourceId(c1).Some? && GetCategoryResourceId(c2).Some?
    ensures GetCategoryResourceId(c1) != GetCategoryResourceId(c2)
  {
  }

  /** Classifying and then looking up the icon never comes back empty. */
  lemma ClassifiedCategoryHasIcon(placeType: PlaceType)
    ensures GetCategoryResourceId(PlaceTypeToCategory(placeType)).Some?
  {
  }
}
