/** Small value types shared by the whole model. */
module PlusTypes {

  /** A value or its absence; `None` stands for a NULL `const char*` or a failed lookup. */
  datatype Option<T> = None | Some(value: T)

  /** The PLUS_SUCCESS / PLUS_FAIL result of every fallible operation. */
  datatype PlusStatus = PlusSuccess | PlusFail
}
