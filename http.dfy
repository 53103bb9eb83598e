/** What a route handler or middleware hands back to the web framework: a status code with a
    JSON body, or a rejected promise that the handler leaves to the framework. */
module Http {
  import opened Crypto

  /** The public part of an account, `{ username, role }`. */
  datatype Profile = Profile(username: string, role: string)

  /** The JSON bodies the service sends; none of them has a field for a password or its hash. */
  datatype Json =
    // `ProfileJson` is `{ user: req.user }`; its field is named `claims` here because `user` is
    // already the `Profile` field of `LoginJson`
    | ErrorJson(error: string)
    | RegisteredJson(message: string, username: string, role: string)
    | LoginJson(token: string, user: Profile)
    | ProfileJson(claims: Claims)
    | DashboardJson(message: string, data: string)

  datatype Reply =
    | Send(status: nat, body: Json)
      /** The async handler threw; what the framework then answers depends on its version. */
    | Unhandled(error: string)
}
