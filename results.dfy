/** Optional values, for the places where the browser code has "nothing" (no submit button, no wrapper, no payload). */
module Results {

  datatype Option<T> = None | Some(value: T)

}
