/** A dish as the menu, the cart and the staff dashboard see it: one row of the `dishes` table.
    Prices are integer cents. */
module Catalog {
  import opened Wrappers

  datatype Dish = Dish(
    id: string,
    name: string,
    description: string,
    price: int,
    category: string,
    imageUrl: Option<string>,
    active: bool)

  /** The category ids offered by the staff dish form, in display order. */
  const DishCategories: seq<string> := ["biryani", "curry", "kebab", "bread", "dessert", "drinks"]
}
