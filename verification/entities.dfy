/** The records the storefront passes between its pages and receives from its
    backend. Money is an integer number of FCFA; coordinates are kept as
    opaque reals (the storefront only stores, forwards and tests them for zero). */
module Entities {
  import opened Values

  /** A map position `{lat, lng}`. */
  datatype Coord = Coord(lat: real, lng: real)

  /** A delivery district as the backend lists it; its coordinates are the
      backend's raw text, which the page hands to `parseFloat`. */
  datatype District = District(id: int, name: string, latitude: string, longitude: string)

  /** A city of the district catalogue; `districts` may be absent. */
  datatype City = City(id: int, name: string, districts: Maybe<seq<District>>)

  /** A district after flattening: the district plus its parent city. */
  datatype FlatDistrict = FlatDistrict(
    district: District,
    cityId: int,
    cityName: string,
    allCityDistricts: seq<District>)

  datatype Sku = Sku(skuId: string)

  /** The product fields the checkout reads. */
  datatype Product = Product(productId: nat, skus: Maybe<seq<Sku>>, price: int, stock: int)

  /** The contact form of the checkout. */
  datatype ContactInfo = ContactInfo(
    fullName: string,
    phone: string,
    whatsapp: string,
    addressDescription: string)

  /** The body of a successful order-creation response. */
  datatype OrderResponse = OrderResponse(
    orderNo: Maybe<string>,
    orderId: Maybe<nat>,
    verificationCode: Maybe<string>,
    userId: Maybe<nat>)

  /** The navigation state the confirmation page receives. Every field may be
      missing when the page is opened directly. */
  datatype SuccessNavigation = SuccessNavigation(
    product: Maybe<Product>,
    quantity: int,
    userInfo: Maybe<ContactInfo>,
    selectedLocation: Maybe<FlatDistrict>,
    totalPrice: int,
    orderResponse: Maybe<OrderResponse>)
}
