/**
 * Interceptors (SiphonBuilder.kt): functions from a stream to a stream, kept in
 * ordered lists per seam (state, change, action). A stream is modelled by the
 * finite sequence of its elements.
 */
module Interceptors {
  import opened Wrappers

  /** A `Watcher<T>`: a callback run for its side effect only. */
  type Watcher<-T> = T -> ()

  /**
   * What an interceptor list holds: either a transformation registered with
   * `intercept`, or the `WatchingInterceptor` that `watchAll` wraps around a watcher.
   */
  datatype Interceptor<!T> =
    | Custom(transform: seq<T> -> seq<T>)
    | Watching(watcher: Watcher<T>)

  /** The output stream of a `WatchingInterceptor` and the values its watcher was called with, in call order. */
  datatype Watched<T> = Watched(output: seq<T>, calls: seq<T>)

  /**
   * `WatchingInterceptor.invoke`: `stream.onEach { watcher(it) }`. Each element is
   * handed to the watcher and then passed on. The watcher itself is abstracted
   * away (its effects are `println`s): `calls` records the values it is called
   * with.
   */
  function WatchingInterceptor<T>(stream: seq<T>): (r: Watched<T>)
    ensures r.output == stream
    ensures r.calls == stream
    decreases |stream|
  {
    if stream == [] then Watched([], [])
    else
      var w := WatchingInterceptor(Init(stream));
      Watched(w.output + [Last(stream)], w.calls + [Last(stream)])
  }

  /** The stream one interceptor produces from `stream`. */
  function Apply<T>(i: Interceptor<T>, stream: seq<T>): seq<T>
  {
    match i
    case Custom(f) => f(stream)
    case Watching(_) => WatchingInterceptor(stream).output
  }

  /** A watching interceptor is transparent: same elements, same order, same count. */
  lemma WatchingIsTransparent<T>(w: Watcher<T>, stream: seq<T>)
    ensures Apply(Watching(w), stream) == stream
  {
  }
}
