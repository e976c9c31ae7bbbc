/** The errors a route can answer with, and the source's status codes and messages. */
module Api {
  import opened ProductSchema

  /** An `HTTPException(status_code, detail)`, or a request body the framework rejects (422). */
  datatype ApiError =
    | HttpError(status: nat, detail: string)
    | ValidationFailed(errors: seq<FieldError>)

  const ProductNotFound := HttpError(404, "Product not found")
  const CartNotFound := HttpError(404, "Cart not found")
  const OrderNotFound := HttpError(404, "Order not found")
  const CartIsEmpty := HttpError(400, "Cart is empty")
  /** `get_current_admin` rejects a caller whose `is_admin` is false. */
  const NotAuthorized := HttpError(403, "Not authorized")
}
