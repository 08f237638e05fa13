/**
 * The Restaurant and Review tables (backend/models/Restaurant.js and
 * backend/models/Review.js): the enumerations, the row types, and what
 * `Model.create` does with a set of attribute values (fill the defaults of
 * undefined attributes, refuse a NULL in a NOT NULL column, refuse a value
 * outside an ENUM).
 */
module Records {
  import opened Wrappers

  /** The `status` ENUM column. */
  datatype Status = Pending | Approved | Rejected | DeleteRequested

  /** The `priceRange` ENUM column. */
  datatype PriceRange = Low | Medium | High

  /** The string a status is stored and sent as. */
  function StatusName(s: Status): string
  {
    match s
    case Pending => "pending"
    case Approved => "approved"
    case Rejected => "rejected"
    case DeleteRequested => "delete_requested"
  }

  /** The ENUM check on `status`: only the four declared strings are accepted. */
  function ParseStatus(s: string): (r: Option<Status>)
    ensures r.Some? ==> StatusName(r.value) == s
  {
    if s == "pending" then Some(Pending)
    else if s == "approved" then Some(Approved)
    else if s == "rejected" then Some(Rejected)
    else if s == "delete_requested" then Some(DeleteRequested)
    else None
  }

  /** Every status survives being written and read back, and distinct statuses are stored distinctly. */
  lemma StatusRoundTrip(s: Status)
    ensures ParseStatus(StatusName(s)) == Some(s)
  {
  }

  /** The string a price tier is stored and sent as. */
  function PriceName(p: PriceRange): string
  {
    match p
    case Low => "low"
    case Medium => "medium"
    case High => "high"
  }

  /** The ENUM check on `priceRange`. */
  function ParsePrice(s: string): (r: Option<PriceRange>)
    ensures r.Some? ==> PriceName(r.value) == s
  {
    if s == "low" then Some(Low)
    else if s == "medium" then Some(Medium)
    else if s == "high" then Some(High)
    else None
  }

  lemma PriceRoundTrip(p: PriceRange)
    ensures ParsePrice(PriceName(p)) == Some(p)
  {
  }

  /**
   * A stored restaurant row. `deleteRequested` is not a column: the schema
   * never declares it, so on a row loaded from the table it reads as
   * `undefined`. It is kept as a separate flag, false unless something sets it,
   * because the approve-delete handler tests it.
   */
  datatype Restaurant = Restaurant(
    id: string,
    name: string,
    street: string,
    building: Option<string>,
    city: string,
    state: string,
    pincode: string,
    category: string,
    priceRange: PriceRange,
    ratingsCount: int,
    totalRatings: int,
    openAllDays: bool,
    sameHoursAllDays: bool,
    closedDays: Option<seq<string>>,
    ownerId: string,
    status: Status,
    thumbnailUrl: Option<string>,
    notices: Option<seq<string>>,
    galleryImages: Option<seq<string>>,
    deleteRequested: bool)

  /**
   * An attribute value whose column has a default: Sequelize fills the
   * default only for an attribute left undefined, not for an explicit null.
   */
  datatype Attr<T> = Given(value: T) | GivenNull | Undefined

  /**
   * The attribute values handed to `Restaurant.create`; `None` is an
   * attribute left undefined or set to null, and `status` tells the two
   * apart. The JSONB columns (working hours, map location, menu) are not
   * part of this model.
   */
  datatype RestaurantDraft = RestaurantDraft(
    id: Option<string>,
    name: Option<string>,
    street: Option<string>,
    building: Option<string>,
    city: Option<string>,
    state: Option<string>,
    pincode: Option<string>,
    category: Option<string>,
    priceRange: Option<string>,
    ratingsCount: Option<int>,
    totalRatings: Option<int>,
    openAllDays: Option<bool>,
    sameHoursAllDays: Option<bool>,
    closedDays: Option<seq<string>>,
    ownerId: Option<string>,
    status: Attr<string>,
    thumbnailUrl: Option<string>,
    notices: Option<seq<string>>,
    galleryImages: Option<seq<string>>)

  /** What `create` yields: the stored row, or the columns whose validation failed. */
  datatype Validation<+T> = Row(row: T) | Invalid(columns: seq<string>)

  /** The value a column takes when its attribute is left undefined. */
  function OrDefault<T>(v: Option<T>, default: T): T
  {
    if v.Some? then v.value else default
  }

  /**
   * The NOT NULL columns the draft leaves null, in declaration order: those
   * without a default when left empty, and `status` when set to null.
   */
  function MissingRequired(d: RestaurantDraft): (cols: seq<string>)
    ensures cols == [] <==>
      d.name.Some? && d.street.Some? && d.city.Some? && d.state.Some? &&
      d.pincode.Some? && d.category.Some? && d.priceRange.Some? && d.ownerId.Some? &&
      !d.status.GivenNull?
  {
    (if d.name.None? then ["name"] else []) +
    (if d.street.None? then ["street"] else []) +
    (if d.city.None? then ["city"] else []) +
    (if d.state.None? then ["state"] else []) +
    (if d.pincode.None? then ["pincode"] else []) +
    (if d.category.None? then ["category"] else []) +
    (if d.priceRange.None? then ["priceRange"] else []) +
    (if d.ownerId.None? then ["ownerId"] else []) +
    (if d.status.GivenNull? then ["status"] else [])
  }

  /** The ENUM columns whose given value is not one of the declared strings. */
  function BadEnums(d: RestaurantDraft): (cols: seq<string>)
    ensures cols == [] <==>
      (d.priceRange.Some? ==> ParsePrice(d.priceRange.value).Some?) &&
      (d.status.Given? ==> ParseStatus(d.status.value).Some?)
  {
    (if d.priceRange.Some? && ParsePrice(d.priceRange.value).None? then ["priceRange"] else []) +
    (if d.status.Given? && ParseStatus(d.status.value).None? then ["status"] else [])
  }

  /**
   * `Restaurant.create(d)`: refuses a missing required column, a null
   * status or an out-of-range ENUM value, otherwise stores the row with the
   * schema's defaults (status pending when undefined, both accumulators 0,
   * openAllDays and sameHoursAllDays true, a fresh UUID for the id).
   */
  function CreateRestaurant(d: RestaurantDraft, freshId: string): (v: Validation<Restaurant>)
    ensures v.Row? <==> MissingRequired(d) == [] && BadEnums(d) == []
    ensures v.Invalid? ==> v.columns == MissingRequired(d) + BadEnums(d)
  {
    var bad := MissingRequired(d) + BadEnums(d);
    if bad != [] then Invalid(bad)
    else Row(Restaurant(
      OrDefault(d.id, freshId),
      d.name.value, d.street.value, d.building, d.city.value, d.state.value,
      d.pincode.value, d.category.value,
      ParsePrice(d.priceRange.value).value,
      OrDefault(d.ratingsCount, 0), OrDefault(d.totalRatings, 0),
      OrDefault(d.openAllDays, true), OrDefault(d.sameHoursAllDays, true),
      d.closedDays, d.ownerId.value,
      if d.status.Given? then ParseStatus(d.status.value).value else Pending,
      d.thumbnailUrl, d.notices, d.galleryImages,
      false))
  }

  /**
   * A row created without naming the defaulted columns starts pending, with
   * no ratings, open all days with the same hours, and without the
   * delete flag; every required value is stored as given.
   */
  lemma CreateRestaurantDefaults(d: RestaurantDraft, freshId: string)
    requires MissingRequired(d) == [] && BadEnums(d) == []
    requires d.id.None? && d.status.Undefined? && d.ratingsCount.None? && d.totalRatings.None?
    requires d.openAllDays.None? && d.sameHoursAllDays.None?
    ensures var r := CreateRestaurant(d, freshId).row;
      && r.id == freshId && r.status == Pending
      && r.ratingsCount == 0 && r.totalRatings == 0
      && r.openAllDays && r.sameHoursAllDays && !r.deleteRequested
      && r.name == d.name.value && r.street == d.street.value && r.city == d.city.value
      && r.state == d.state.value && r.pincode == d.pincode.value
      && r.category == d.category.value && r.ownerId == d.ownerId.value
      && PriceName(r.priceRange) == d.priceRange.value
      && r.building == d.building
  {
  }

  /**
   * A default is no stand-in for an explicit null: a draft that `create`
   * accepts with `status` undefined, and so stores as pending, is refused
   * on the `status` column once its status is set to null.
   */
  lemma NullStatusIsRefused(d: RestaurantDraft, freshId: string)
    requires d.status.Undefined? && CreateRestaurant(d, freshId).Row?
    ensures CreateRestaurant(d, freshId).row.status == Pending
    ensures CreateRestaurant(d.(status := GivenNull), freshId) == Invalid(["status"])
  {
    assert MissingRequired(d.(status := GivenNull)) == ["status"];
  }

  /** No row that `create` stores carries the delete flag: only the `status` column records a deletion request. */
  lemma CreatedRowsHaveNoDeleteFlag(d: RestaurantDraft, freshId: string)
    ensures CreateRestaurant(d, freshId).Row? ==> !CreateRestaurant(d, freshId).row.deleteRequested
  {
  }

  /**
   * The building part of an address template (`building ? building + ', ' : ''`):
   * the building and a comma when it is a non-empty string, nothing otherwise.
   */
  function BuildingSegment(building: Option<string>): (seg: string)
    ensures seg == "" <==> building.None? || building.value == ""
    ensures seg != "" ==> seg == building.value + ", "
  {
    if building.Some? && building.value != "" then building.value + ", " else ""
  }

  /** Two strings that share a prefix and a suffix are equal exactly when their middles are. */
  lemma MiddleDecides(pre: string, a: string, b: string, post: string)
    ensures pre + a + post == pre + b + post <==> a == b
  {
    if pre + a + post == pre + b + post {
      assert |a| == |b|;
      assert a == (pre + a + post)[|pre|..|pre| + |a|];
      assert b == (pre + b + post)[|pre|..|pre| + |b|];
    }
  }

  /** A stored review row. */
  datatype Review = Review(id: string, restaurantId: string, userId: string, rating: int, comment: Option<string>)

  /** The attribute values handed to `Review.create`. */
  datatype ReviewDraft = ReviewDraft(
    id: Option<string>, restaurantId: Option<string>, userId: Option<string>,
    rating: Option<int>, comment: Option<string>)

  /**
   * `Review.create(d)`: `restaurantId`, `userId` and `rating` are required,
   * `comment` is optional, and the id defaults to a fresh UUID.
   */
  function CreateReviewRow(d: ReviewDraft, freshId: string): (v: Validation<Review>)
    ensures v.Row? <==> d.restaurantId.Some? && d.userId.Some? && d.rating.Some?
    ensures v.Row? ==> v.row == Review(OrDefault(d.id, freshId), d.restaurantId.value,
                                       d.userId.value, d.rating.value, d.comment)
    ensures v.Invalid? ==> |v.columns| > 0
  {
    var bad := (if d.restaurantId.None? then ["restaurantId"] else []) +
               (if d.userId.None? then ["userId"] else []) +
               (if d.rating.None? then ["rating"] else []);
    if bad != [] then Invalid(bad)
    else Row(Review(OrDefault(d.id, freshId), d.restaurantId.value, d.userId.value, d.rating.value, d.comment))
  }
}
