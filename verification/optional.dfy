/** A value that may be missing. In this model it stands for an absent
    storage key, the reply of a remote call that failed, or a lookup that
    found nothing. */
module Optional {

  datatype Option<T> = None | Some(value: T) {

    /** The held value, or `fallback` when there is none. */
    function ValueOr(fallback: T): T {
      if Some? then value else fallback
    }
  }
}
