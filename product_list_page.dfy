/** The stateful side of the product list page: the list, the loading flag
    and the error, updated by the fetch handler run on mount and by the delete
    handler. Each server answer is an input. */
module ProductListPage {
  import opened JsValues
  import opened ProductListLogic

  const FetchFailedMessage := "Failed to fetch products"
  const DeleteFailedMessage := "Failed to delete product"

  /** The answer to the list request: `response.ok`, the JSON `success`,
      `message` and `products` fields; or the message of an exception thrown
      by `fetch` or by reading the body. */
  datatype FetchReply =
    | FetchReplied(ok: bool, success: bool, message: Option<string>, products: ProductsField)
    | FetchRejected(reason: string)

  /** The answer to a delete request, in the same shape. */
  datatype DeleteReply =
    | DeleteReplied(ok: bool, success: bool, message: Option<string>)
    | DeleteRejected(reason: string)

  predicate FetchSucceeded(reply: FetchReply) {
    reply.FetchReplied? && reply.ok && reply.success
  }

  /** The error a failed fetch leaves: the server's message, the generic one
      when the server gave none, or the exception's own message. */
  function FetchError(reply: FetchReply): (e: string)
    requires !FetchSucceeded(reply)
    ensures reply.FetchReplied? ==> e != "" && e == OrElse(reply.message, FetchFailedMessage)
    ensures reply.FetchReplied? && Truthy(reply.message) ==> e == reply.message.value
    ensures reply.FetchRejected? ==> e == reply.reason
  {
    match reply
    case FetchReplied(_, _, message, _) => OrElse(message, FetchFailedMessage)
    case FetchRejected(reason) => reason
  }

  predicate DeleteSucceeded(reply: DeleteReply) {
    reply.DeleteReplied? && reply.ok && reply.success
  }

  function DeleteError(reply: DeleteReply): (e: string)
    requires !DeleteSucceeded(reply)
    ensures reply.DeleteReplied? ==> e != "" && e == OrElse(reply.message, DeleteFailedMessage)
    ensures reply.DeleteReplied? && Truthy(reply.message) ==> e == reply.message.value
    ensures reply.DeleteRejected? ==> e == reply.reason
  {
    match reply
    case DeleteReplied(_, _, message) => OrElse(message, DeleteFailedMessage)
    case DeleteRejected(reason) => reason
  }

  /** The products page component. */
  class ProductsPage {
    var products: seq<ProductRow>
    var loading: bool
    var error: Option<string>

    constructor ()
      ensures products == [] && loading && error == None
    {
      products := [];
      loading := true;
      error := None;
    }

    /** `fetchProducts`: on a successful answer the list becomes the
        normalised `products` field; otherwise the list is left alone and the
        error is set. Loading ends on every path. */
    method FetchProducts(reply: FetchReply)
      modifies this
      ensures !loading
      ensures FetchSucceeded(reply) ==> products == NormalizeProducts(reply.products) && error == old(error)
      ensures !FetchSucceeded(reply) ==> products == old(products) && error == Some(FetchError(reply))
    {
      match reply {
        case FetchRejected(reason) =>
          error := Some(reason);
        case FetchReplied(ok, success, message, field) =>
          if !ok || !success {
            error := Some(OrElse(message, FetchFailedMessage));
          } else {
            products := NormalizeProducts(field);
          }
      }
      loading := false;
    }

    /** `handleDelete(id)`: on a successful answer every product with that id
        is dropped from the list; otherwise the list is left alone and the
        error is set. Loading is not touched. */
    method HandleDelete(id: ProductId, reply: DeleteReply)
      modifies this`products, this`error
      ensures DeleteSucceeded(reply) ==> products == WithoutId(old(products), id) && error == old(error)
      ensures !DeleteSucceeded(reply) ==> products == old(products) && error == Some(DeleteError(reply))
    {
      match reply {
        case DeleteRejected(reason) =>
          error := Some(reason);
        case DeleteReplied(ok, success, message) =>
          if !ok || !success {
            error := Some(OrElse(message, DeleteFailedMessage));
          } else {
            products := WithoutId(products, id);
          }
      }
    }
  }
}
