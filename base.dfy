/** Small value types shared by every module of the model. */
module Base {

  /** A value that may be absent (`undefined` / `null` on the TypeScript side). */
  datatype Option<+T> = None | Some(value: T)

  /** A value or the error a call throws. */
  datatype Result<+T, +E> = Ok(value: T) | Err(error: E)

  /** The three interface languages, `'ar' | 'en' | 'fr'`. */
  datatype Language = Ar | En | Fr
}
