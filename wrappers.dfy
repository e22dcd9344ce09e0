/** The optional value used throughout the model: `None` stands for JavaScript's
    `undefined`/`null`, or for an array lookup that found nothing. */
module Wrappers {

  datatype Option<+T> = None | Some(value: T)
}
