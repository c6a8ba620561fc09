/** What a request handler sends back, with the framework taken away. */
module Http {
  import opened Wrappers

  /** Targets of `res.redirect`. */
  datatype Location =
    | Home                          // "/"
    | LoginPage                     // "/login"
    | CartPage                      // "/cart"
    | SuccessPage(orderId: nat)     // "/success?order=<id>"
    | AdminOrders                   // "/admin/orders"
    | External(url: string)         // the gateway's hosted checkout page

  datatype Outcome =
    | Redirect(to: Location)
    | Text(code: int, body: string)                              // res.status(code).send(body)
    | Render(code: int, view: string, error: Option<string>)     // res.status(code).render(view, {error})
}
