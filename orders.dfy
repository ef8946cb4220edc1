/** The order entities: the flat row the upload parses and stores, and the
    nested User -> Order -> Product view the service returns. */
module Orders {
  import opened Wrappers

  /** One stored row. The ids are what `parseInt` gave, so a malformed
      field leaves `None` (NaN); the amount is text with two decimals, or
      "NaN". */
  datatype OrderRecord = OrderRecord(
    userId: Option<int>,
    name: string,
    orderId: Option<int>,
    productId: Option<int>,
    productValue: string,
    date: string)

  datatype ProductDto = ProductDto(productId: Option<int>, value: string)

  datatype OrderDto = OrderDto(orderId: Option<int>, total: string, date: string, products: seq<ProductDto>)

  datatype UserDto = UserDto(userId: Option<int>, name: string, orders: seq<OrderDto>)
}
