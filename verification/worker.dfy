/**
 What a service worker's event handlers produce, once the network is an
 input and every cache write they start is taken as applied.
 */
module Worker {
  import opened Fetch
  import opened CacheStorage

  /** The response given to `respondWith` (None when the handler's promise
      settles to `undefined`, which the page sees as a network error) and
      the storage after the handler's writes. */
  datatype Served = Served(reply: Option<Response>, storage: Storage)

  /** A fetch event is either left to the browser (the handler returns
      without calling `respondWith`, touching nothing) or answered. */
  datatype Handled = NotIntercepted | Responded(served: Served)

  /** The install event: whether the `waitUntil` promise fulfils (so the
      worker installs), whether `skipWaiting` was reached, and the storage. */
  datatype Installed = Installed(succeeded: bool, skippedWaiting: bool, storage: Storage)
}
