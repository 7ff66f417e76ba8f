/** The optional value used throughout the model: a missing DOM node, a track without
    a title, a search that found nothing. */
module Optional {

  datatype Option<T> = None | Some(value: T)

}
