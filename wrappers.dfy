/** Optional values: a nullable database column or a cache lookup that found nothing
    is `None`. */
module Wrappers {

  datatype Option<+T> = None | Some(value: T)
}
