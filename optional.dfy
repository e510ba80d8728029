/** A value that may be absent: a JavaScript `undefined`/`null`, or a lookup that found nothing. */
module Optional {

  datatype Option<+T> = None | Some(value: T)

}
