/**
 * The Store settings a session borrows. The storage backend and the key
 * generator that the Store also holds are modelled separately: the backend as
 * the `storage` part of the world, the generator as the id it produced,
 * passed to Regenerate.
 */
module Store {

  /** `Expiration` is in whole seconds; the `CookieSameSite` setting is kept as written. */
  datatype Config = Config(
    expiration: int,
    cookieName: string,
    cookieDomain: string,
    cookiePath: string,
    cookieSecure: bool,
    cookieHTTPOnly: bool,
    cookieSameSite: string)
}
