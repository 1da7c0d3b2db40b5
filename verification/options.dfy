/** The optional value used wherever the bot treats something as possibly absent:
    a missing quote, a failed fetch, a division that would raise. */
module Options {

  datatype Option<+T> = None | Some(value: T)

}
