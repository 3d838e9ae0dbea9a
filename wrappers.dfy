/** Optional values: a missing query parameter, a nullable column, a lookup that found nothing. */
module Wrappers {

  datatype Option<+T> = None | Some(value: T)

}
